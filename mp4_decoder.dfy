/**
 * The DAB+ superframe synchroniser of mp4_decoder: its input items are
 * logical frames of 24 * bit_rate_n bytes; from frame n on it asks the fire
 * code check whether a superframe of five frames starts there, copies the
 * five frames byte by byte to the output when it does and moves on by five,
 * and moves on by one frame when it does not.
 *
 * The fire code check is a parameter: a predicate on the frames from frame n
 * on, which is what the check sees through its pointer &in[n * frame_size];
 * it reads past the input only when n is past the last frame. The loop's only bound is n < noutput_items, which
 * counts input frames against an output capacity in bytes; Scan with room
 * None is that loop, with room Some(r) the loop that also stops once a
 * further superframe would not fit (the intended bound), and Work is the
 * loop the block runs, where a copy past the output ends the call.
 */
module Mp4Decoder {
  import opened Signal

  /** The bytes of the given frames, one after the other. */
  function Flatten(frames: seq<seq<byte>>): seq<byte>
  {
    if frames == [] then [] else Flatten(frames[..|frames| - 1]) + frames[|frames| - 1]
  }

  /** All frames have fs bytes. */
  predicate FramesOf(frames: seq<seq<byte>>, fs: nat)
  {
    forall k :: 0 <= k < |frames| ==> |frames[k]| == fs
  }

  lemma {:induction false} FlattenLength(frames: seq<seq<byte>>, fs: nat)
    requires FramesOf(frames, fs)
    ensures |Flatten(frames)| == |frames| * fs
  {
    if frames != [] {
      var k := |frames| - 1;
      FlattenLength(frames[..k], fs);
      assert (k + 1) * fs == k * fs + fs;
    }
  }

  /** The superframe candidate at frame n: frames n .. n+4. */
  function Window(frames: seq<seq<byte>>, n: nat): seq<seq<byte>>
    requires n + 5 <= |frames|
  {
    frames[n .. n + 5]
  }

  /** The superframes found (their first frames, in order) and the frame the scan stopped at; or a read past the input. */
  datatype ScanResult = Scanned(starts: seq<nat>, next: nat) | Overrun(frame: nat)

  /** Whether the output room left (None: no count is kept) cannot take one more superframe of 5 * fs bytes. */
  predicate Full(room: Option<nat>, fs: nat)
  {
    room.Some? && room.value < 5 * fs
  }

  function Less(room: Option<nat>, fs: nat): Option<nat>
    requires !Full(room, fs)
  {
    if room.None? then None else Some(room.value - 5 * fs)
  }

  /**
   * The scan of general_work from frame n while n < limit; with room = Some(r)
   * it also stops once a further superframe would not fit in r output bytes.
   */
  function Scan(frames: seq<seq<byte>>, fs: nat, passes: seq<seq<byte>> -> bool, n: nat, limit: nat, room: Option<nat>): ScanResult
    decreases limit - n
  {
    if n >= limit || Full(room, fs) then Scanned([], n)
    else if n >= |frames| then Overrun(n)
    else if passes(frames[n..]) then
      if n + 5 > |frames| then Overrun(n)
      else match Scan(frames, fs, passes, n + 5, limit, Less(room, fs))
      case Scanned(starts, next) => Scanned([n] + starts, next)
      case Overrun(f) => Overrun(f)
    else Scan(frames, fs, passes, n + 1, limit, room)
  }

  /** Every superframe of starts lies in the input. */
  predicate Inside(frames: seq<seq<byte>>, starts: seq<nat>)
  {
    forall i :: 0 <= i < |starts| ==> starts[i] + 5 <= |frames|
  }

  /** The bytes of the superframes from the given first frames, one after the other. */
  function Superframes(frames: seq<seq<byte>>, starts: seq<nat>): seq<byte>
    requires Inside(frames, starts)
  {
    if starts == [] then []
    else Superframes(frames, starts[..|starts| - 1]) + Flatten(Window(frames, starts[|starts| - 1]))
  }

  // ---------------------------------------------------------------------
  // What the scan finds.

  /** The first frames are increasing and at least five apart: the superframes copied do not overlap. */
  predicate Spaced(starts: seq<nat>)
  {
    forall i, j :: 0 <= i < j < |starts| ==> starts[i] + 5 <= starts[j]
  }

  /** Every superframe found lies in the input, passed the check, begins in [n, limit) and ends by next. */
  predicate Found(frames: seq<seq<byte>>, passes: seq<seq<byte>> -> bool, starts: seq<nat>, n: nat, limit: nat, next: nat)
  {
    forall i :: 0 <= i < |starts| ==>
      n <= starts[i] < limit && starts[i] + 5 <= next && starts[i] + 5 <= |frames| && passes(frames[starts[i]..])
  }

  /** Frame m lies inside one of the superframes found. */
  predicate Covered(starts: seq<nat>, m: nat)
  {
    exists i :: 0 <= i < |starts| && starts[i] <= m < starts[i] + 5
  }

  /** The superframes the scan finds are in order, apart, checked and in range. */
  lemma {:induction false} ScanFound(frames: seq<seq<byte>>, fs: nat, passes: seq<seq<byte>> -> bool, n: nat, limit: nat, room: Option<nat>)
    ensures var r := Scan(frames, fs, passes, n, limit, room);
      r.Scanned? ==> n <= r.next && Spaced(r.starts) && Found(frames, passes, r.starts, n, limit, r.next)
    decreases limit - n
  {
    if n < limit && !Full(room, fs) && n < |frames| {
      if passes(frames[n..]) {
        if n + 5 <= |frames| {
          ScanFound(frames, fs, passes, n + 5, limit, Less(room, fs));
        }
      } else {
        ScanFound(frames, fs, passes, n + 1, limit, room);
      }
    }
  }

  /** Every frame the scan stepped over without taking it into a superframe failed the check. */
  lemma {:induction false} ScanSkipped(frames: seq<seq<byte>>, fs: nat, passes: seq<seq<byte>> -> bool, n: nat, limit: nat, room: Option<nat>, m: nat)
    requires var r := Scan(frames, fs, passes, n, limit, room); r.Scanned? && n <= m < r.next && !Covered(r.starts, m)
    ensures m < |frames| && !passes(frames[m..])
    decreases limit - n
  {
    var r := Scan(frames, fs, passes, n, limit, room);
    if passes(frames[n..]) {
      var rest := Scan(frames, fs, passes, n + 5, limit, Less(room, fs));
      assert r.starts == [n] + rest.starts;
      assert !(r.starts[0] <= m < r.starts[0] + 5);
      forall i | 0 <= i < |rest.starts|
        ensures !(rest.starts[i] <= m < rest.starts[i] + 5)
      {
        assert r.starts[i + 1] == rest.starts[i];
      }
      ScanSkipped(frames, fs, passes, n + 5, limit, Less(room, fs), m);
    } else if m > n {
      ScanSkipped(frames, fs, passes, n + 1, limit, room, m);
    }
  }

  /**
   * The scan ends at most four frames past the limit; when it keeps no count
   * of the room it ends at or past the limit.
   */
  lemma {:induction false} ScanEnds(frames: seq<seq<byte>>, fs: nat, passes: seq<seq<byte>> -> bool, n: nat, limit: nat, room: Option<nat>)
    requires n <= limit
    ensures var r := Scan(frames, fs, passes, n, limit, room);
      r.Scanned? ==> r.next <= limit + 4 && (room.None? ==> limit <= r.next)
    decreases limit - n
  {
    if n < limit && !Full(room, fs) && n < |frames| {
      if passes(frames[n..]) {
        if n + 5 <= limit && n + 5 <= |frames| {
          ScanEnds(frames, fs, passes, n + 5, limit, Less(room, fs));
        }
      } else {
        ScanEnds(frames, fs, passes, n + 1, limit, room);
      }
    }
  }

  /**
   * The scan reads past the input only at a frame in [n, limit) that lies
   * past the last frame, or whose check passes with fewer than five frames
   * left; with limit + 4 frames it never does.
   */
  lemma {:induction false} ScanOverrun(frames: seq<seq<byte>>, fs: nat, passes: seq<seq<byte>> -> bool, n: nat, limit: nat, room: Option<nat>)
    ensures var r := Scan(frames, fs, passes, n, limit, room);
      r.Overrun? ==>
        && n <= r.frame < limit
        && (r.frame >= |frames| || (passes(frames[r.frame..]) && r.frame + 5 > |frames|))
    ensures limit + 4 <= |frames| ==> Scan(frames, fs, passes, n, limit, room).Scanned?
    decreases limit - n
  {
    if n < limit && !Full(room, fs) && n < |frames| {
      if passes(frames[n..]) {
        if n + 5 <= |frames| {
          ScanOverrun(frames, fs, passes, n + 5, limit, Less(room, fs));
        }
      } else {
        ScanOverrun(frames, fs, passes, n + 1, limit, room);
      }
    }
  }

  // ---------------------------------------------------------------------
  // The loop as written: n < noutput_items is its only bound.

  /** As written, when every check passes, the scan finds a superframe for every five frames below the limit. */
  lemma {:induction false} AsWrittenTakesAll(frames: seq<seq<byte>>, fs: nat, passes: seq<seq<byte>> -> bool, n: nat, limit: nat)
    requires forall w :: passes(w)
    requires n <= limit && limit + 4 <= |frames|
    ensures var r := Scan(frames, fs, passes, n, limit, None);
      r.Scanned? && 5 * |r.starts| >= limit - n
    decreases limit - n
  {
    if n < limit {
      AsWrittenTakesAll(frames, fs, passes, if n + 5 <= limit then n + 5 else limit, limit);
    }
  }

  /**
   * The loop bound of general_work counts frames against an output capacity
   * in bytes: with frames of two bytes or more and every check passing, the
   * as-written scan writes more than noutput bytes into an output of
   * noutput bytes (with bit_rate_n = 1 and noutput = 120: 24 superframes,
   * 2880 bytes).
   */
  lemma AsWrittenWritesPastOutput(frames: seq<seq<byte>>, fs: nat, passes: seq<seq<byte>> -> bool, noutput: nat)
    requires forall w :: passes(w)
    requires FramesOf(frames, fs) && fs >= 2 && noutput >= 1 && noutput + 4 <= |frames|
    ensures var r := Scan(frames, fs, passes, 0, noutput, None);
      r.Scanned? && Inside(frames, r.starts) && |Superframes(frames, r.starts)| > noutput
  {
    AsWrittenTakesAll(frames, fs, passes, 0, noutput);
    ScanFound(frames, fs, passes, 0, noutput, None);
    var r := Scan(frames, fs, passes, 0, noutput, None);
    SuperframesLength(frames, fs, r.starts);
    ProductExceeds(|r.starts|, fs, noutput);
  }

  lemma ProductExceeds(k: nat, fs: nat, noutput: nat)
    requires 5 * k >= noutput >= 1 && fs >= 2
    ensures k * (5 * fs) > noutput
  {
    MulMonotone(noutput, 5 * k, fs);
    assert k * (5 * fs) == (5 * k) * fs;
  }

  lemma MulMonotone(a: nat, b: nat, c: nat)
    requires a <= b
    ensures a * c <= b * c
  {
  }

  lemma {:induction false} SuperframesLength(frames: seq<seq<byte>>, fs: nat, starts: seq<nat>)
    requires FramesOf(frames, fs) && Inside(frames, starts)
    ensures |Superframes(frames, starts)| == |starts| * (5 * fs)
  {
    if starts != [] {
      var k := |starts| - 1;
      assert Inside(frames, starts[..k]);
      SuperframesLength(frames, fs, starts[..k]);
      WindowLength(frames, fs, starts[k]);
      assert Superframes(frames, starts) == Superframes(frames, starts[..k]) + Flatten(Window(frames, starts[k]));
      MulSuccessor(k, 5 * fs);
    }
  }

  lemma MulSuccessor(k: nat, m: nat)
    ensures (k + 1) * m == k * m + m
  {
  }

  lemma WindowLength(frames: seq<seq<byte>>, fs: nat, n: nat)
    requires FramesOf(frames, fs) && n + 5 <= |frames|
    ensures |Flatten(Window(frames, n))| == 5 * fs
  {
    FlattenLength(Window(frames, n), fs);
  }

  /**
   * The room-keeping scan, which stops once a further superframe would not
   * fit, never copies more than its room: the intended bound of the loop.
   */
  lemma {:induction false} StoppingScanFits(frames: seq<seq<byte>>, fs: nat, passes: seq<seq<byte>> -> bool, n: nat, limit: nat, room: nat)
    ensures var r := Scan(frames, fs, passes, n, limit, Some(room));
      r.Scanned? ==> |r.starts| * (5 * fs) <= room
    decreases limit - n
  {
    if n < limit && !Full(Some(room), fs) && n < |frames| {
      if passes(frames[n..]) && n + 5 <= |frames| {
        StoppingScanFits(frames, fs, passes, n + 5, limit, room - 5 * fs);
        var r := Scan(frames, fs, passes, n + 5, limit, Some(room - 5 * fs));
        if r.Scanned? {
          MulSuccessor(|r.starts|, 5 * fs);
        }
      } else {
        StoppingScanFits(frames, fs, passes, n + 1, limit, room);
      }
    }
  }

  /** With frames of fs bytes, the superframes the room-keeping scan copies fit in its room. */
  lemma StoppingScanOutputFits(frames: seq<seq<byte>>, fs: nat, passes: seq<seq<byte>> -> bool, noutput: nat)
    requires FramesOf(frames, fs)
    ensures var r := Scan(frames, fs, passes, 0, noutput, Some(noutput));
      r.Scanned? ==> Inside(frames, r.starts) && |Superframes(frames, r.starts)| <= noutput
  {
    var r := Scan(frames, fs, passes, 0, noutput, Some(noutput));
    ScanFound(frames, fs, passes, 0, noutput, Some(noutput));
    StoppingScanFits(frames, fs, passes, 0, noutput, noutput);
    if r.Scanned? {
      SuperframesLength(frames, fs, r.starts);
    }
  }

  // ---------------------------------------------------------------------
  // The loop as the block runs it: reads and writes past a buffer are errors.

  /**
   * What ends a call early: a check at a frame past the input or a copy of
   * five frames past it, or a superframe copied past the output's noutput
   * bytes.
   */
  datatype WorkError = ReadsPastInput(frame: nat) | WritesPastOutput(frame: nat)

  /** The superframes copied (their first frames, in order) and the frame the loop stopped at; or the error. */
  datatype WorkResult = Copied(starts: seq<nat>, next: nat) | Failed(error: WorkError)

  /**
   * The loop of general_work from frame n while n < limit, with room output
   * bytes left: a check at a frame past the input, or a passing check with
   * fewer than five frames left, reads past the input; a passing check
   * whose five frames do not fit in the room writes past the output.
   */
  function Work(frames: seq<seq<byte>>, fs: nat, passes: seq<seq<byte>> -> bool, n: nat, limit: nat, room: nat): WorkResult
    decreases limit - n
  {
    if n >= limit then Copied([], n)
    else if n >= |frames| then Failed(ReadsPastInput(n))
    else if passes(frames[n..]) then
      if n + 5 > |frames| then Failed(ReadsPastInput(n))
      else if room < 5 * fs then Failed(WritesPastOutput(n))
      else ExtendWork([n], Work(frames, fs, passes, n + 5, limit, room - 5 * fs))
    else Work(frames, fs, passes, n + 1, limit, room)
  }

  /** The loop's result with prefix in front of the superframes copied. */
  function ExtendWork(prefix: seq<nat>, w: WorkResult): WorkResult
  {
    match w
    case Copied(starts, next) => Copied(prefix + starts, next)
    case Failed(e) => w
  }

  /**
   * The block's loop is the scan as written: it copies exactly when the
   * as-written scan stays inside the input and its superframes fit in the
   * room, and then copies what that scan finds; it reads past the input
   * where that scan does; and a write past the output is at a passing
   * window inside the input.
   */
  lemma {:induction false} WorkIsScan(frames: seq<seq<byte>>, fs: nat, passes: seq<seq<byte>> -> bool, n: nat, limit: nat, room: nat)
    ensures var w, r := Work(frames, fs, passes, n, limit, room), Scan(frames, fs, passes, n, limit, None);
      && (w.Copied? <==> r.Scanned? && |r.starts| * (5 * fs) <= room)
      && (w.Copied? ==> r == Scanned(w.starts, w.next))
      && (w.Failed? && w.error.ReadsPastInput? ==> r == Overrun(w.error.frame))
      && (w.Failed? && w.error.WritesPastOutput? ==>
            var f := w.error.frame; n <= f < limit && f + 5 <= |frames| && passes(frames[f..]))
    decreases limit - n
  {
    if n < limit && n < |frames| {
      if passes(frames[n..]) && n + 5 <= |frames| {
        if room >= 5 * fs {
          WorkIsScan(frames, fs, passes, n + 5, limit, room - 5 * fs);
          var r := Scan(frames, fs, passes, n + 5, limit, None);
          if r.Scanned? {
            MulSuccessor(|r.starts|, 5 * fs);
          }
        } else {
          var r := Scan(frames, fs, passes, n + 5, limit, None);
          if r.Scanned? {
            MulSuccessor(|r.starts|, 5 * fs);
            MulMonotone(1, |r.starts| + 1, 5 * fs);
          }
        }
      } else {
        WorkIsScan(frames, fs, passes, n + 1, limit, room);
      }
    }
  }

  /**
   * When no check from frame n on passes, the loop steps through the frames
   * one by one, copies nothing and stops at the limit without leaving an
   * input of at least limit frames.
   */
  lemma {:induction false} FailingChecksStepThrough(frames: seq<seq<byte>>, fs: nat, passes: seq<seq<byte>> -> bool, n: nat, limit: nat, room: nat)
    requires n <= limit <= |frames|
    requires forall m :: n <= m < limit ==> !passes(frames[m..])
    ensures Work(frames, fs, passes, n, limit, room) == Copied([], limit)
    decreases limit - n
  {
    if n < limit {
      FailingChecksStepThrough(frames, fs, passes, n + 1, limit, room);
    }
  }

  /** A call that copies stops between noutput and noutput + 4 frames. */
  lemma WorkConsumes(frames: seq<seq<byte>>, fs: nat, passes: seq<seq<byte>> -> bool, noutput: nat)
    ensures var w := Work(frames, fs, passes, 0, noutput, noutput);
      w.Copied? ==> noutput <= w.next <= noutput + 4
  {
    WorkIsScan(frames, fs, passes, 0, noutput, noutput);
    ScanEnds(frames, fs, passes, 0, noutput, None);
  }

  /** The block reports the write past the output that AsWrittenWritesPastOutput exhibits. */
  lemma BlockWritesPastOutput(frames: seq<seq<byte>>, fs: nat, passes: seq<seq<byte>> -> bool, noutput: nat)
    requires forall w :: passes(w)
    requires FramesOf(frames, fs) && fs >= 2 && noutput >= 1 && noutput + 4 <= |frames|
    ensures Work(frames, fs, passes, 0, noutput, noutput).Failed?
    ensures Work(frames, fs, passes, 0, noutput, noutput).error.WritesPastOutput?
  {
    AsWrittenWritesPastOutput(frames, fs, passes, noutput);
    var r := Scan(frames, fs, passes, 0, noutput, None);
    SuperframesLength(frames, fs, r.starts);
    WorkIsScan(frames, fs, passes, 0, noutput, noutput);
  }

  // ---------------------------------------------------------------------
  // The block.

  class Decoder {
    const bitRateN: nat
    /** d_frame_size: 24 bytes per unit of bit rate. */
    const frameSize: nat

    constructor (bitRateN: nat)
      ensures this.bitRateN == bitRateN && frameSize == 24 * bitRateN
    {
      this.bitRateN := bitRateN;
      frameSize := 24 * bitRateN;
    }

    /** set_output_multiple: one superframe of five frames. */
    function OutputMultiple(): (m: nat)
      ensures m == 5 * frameSize
    {
      5 * frameSize
    }

    /**
     * general_work: the loop from frame 0 while n < noutput, copying each
     * superframe whose fire code passes one after the other into the
     * output of noutput bytes; produced is their byte count and consumed
     * the frame the loop stopped at. Checking a frame past the input,
     * copying a superframe that reaches past it, or copying past the output
     * is undefined in the source and ends the call with an error here.
     */
    method GeneralWork(frames: seq<seq<byte>>, noutput: nat, passes: seq<seq<byte>> -> bool)
      returns (error: Option<WorkError>, out: seq<byte>, produced: nat, consumed: nat)
      requires FramesOf(frames, frameSize)
      ensures var w := Work(frames, frameSize, passes, 0, noutput, noutput);
        && (w.Failed? ==> error == Some(w.error))
        && (w.Copied? ==> error.None? && consumed == w.next && produced == |out| <= noutput)
        && (w.Copied? ==> Inside(frames, w.starts) && out == Superframes(frames, w.starts))
        && (w.Copied? ==> noutput <= consumed <= noutput + 4)
    {
      var fs := frameSize;
      var n := 0;
      var room: nat := noutput;
      ghost var starts: seq<nat> := [];
      out := [];
      WorkConsumes(frames, fs, passes, noutput);
      while n < noutput
        invariant Work(frames, fs, passes, 0, noutput, noutput) == ExtendWork(starts, Work(frames, fs, passes, n, noutput, room))
        invariant Inside(frames, starts) && out == Superframes(frames, starts)
        invariant |out| + room == noutput
        decreases noutput - n
      {
        if n >= |frames| {
          return Some(ReadsPastInput(n)), [], 0, 0;
        }
        if passes(frames[n..]) {
          if n + 5 > |frames| {
            return Some(ReadsPastInput(n)), [], 0, 0;
          }
          if room < 5 * fs {
            return Some(WritesPastOutput(n)), [], 0, 0;
          }
          ghost var rest := Work(frames, fs, passes, n + 5, noutput, room - 5 * fs);
          ExtendWorkTwice(starts, [n], rest);
          var copied := CopySuperframe(frames, fs, n, out);
          WindowLength(frames, fs, n);
          assert Inside(frames, starts + [n]);
          assert Superframes(frames, starts + [n]) == copied by {
            assert (starts + [n])[..|starts|] == starts;
          }
          out := copied;
          starts := starts + [n];
          room := room - 5 * fs;
          n := n + 5;
        } else {
          n := n + 1;
        }
      }
      assert starts + [] == starts;
      return None, out, |out|, n;
    }
  }

  /** The byte-copy loop: the five frames from frame n appended to out. */
  method CopySuperframe(frames: seq<seq<byte>>, fs: nat, n: nat, out: seq<byte>) returns (r: seq<byte>)
    requires FramesOf(frames, fs) && n + 5 <= |frames|
    ensures r == out + Flatten(Window(frames, n))
  {
    r := out;
    for j := 0 to 5
      invariant r == out + Flatten(frames[n .. n + j])
    {
      for i := 0 to fs
        invariant r == out + Flatten(frames[n .. n + j]) + frames[n + j][..i]
      {
        r := r + [frames[n + j][i]];
        assert frames[n + j][..i + 1] == frames[n + j][..i] + [frames[n + j][i]];
      }
      assert frames[n .. n + j + 1][..j] == frames[n .. n + j];
      assert frames[n + j][..fs] == frames[n + j];
    }
  }

  lemma ExtendWorkTwice(p: seq<nat>, q: seq<nat>, w: WorkResult)
    ensures ExtendWork(p, ExtendWork(q, w)) == ExtendWork(p + q, w)
  {
    if w.Copied? {
      assert p + (q + w.starts) == (p + q) + w.starts;
    }
  }
}
