/**
 * general_work of mp4_decode_bs: for every superframe of the call, read the
 * header into the decoder's fields and its AU start table into d_au_start,
 * then check every access unit (AU): its start must not lie before the
 * previous one, its length must be below 960 bytes, and its CRC-16 must
 * pass before it is handed to the AAC decoder. The two failed sanity checks
 * throw and end the call.
 *
 * The table is written into the array as the block writes it
 * (Mp4DecodeBs.AuStartsAsWritten, read from `in`, the input after its first
 * superframe): for the first superframe and for layouts 0 and 3 that is the
 * table the header defines (BlockReadsStandardTable); case 1 of a later
 * superframe writes outside the array, which ends the call here with
 * WritesOutsideTable (BlockLaterSingleLayout), and case 2 reads in[8]
 * (BlockLaterSixLayout).
 */
module Mp4Superframe {
  import opened Signal
  import opened Mp4DecodeBs

  /** The output items one superframe stands for: 960 * 4 (the output multiple). */
  const SamplesPerSuperframe: nat := 3840

  /** The largest AU the decoder accepts is 959 bytes. */
  const MaxAuLength: nat := 960

  /**
   * Why a call ends early: the two exceptions of the source, a start table
   * that points outside the input buffer (the source reads there without a
   * check), and case 1's write of d_au_start[n * superframe_size] past the
   * ten entries (undefined in the source).
   */
  datatype AuError = StartAddressInvalid | FrameLengthOutOfRange(length: int) | ReadsOutsideInput | WritesOutsideTable

  /** An AU handed to the decoder: its superframe, its number in it, its first byte in the input and its length without the CRC. */
  datatype Au = Au(superframe: nat, index: nat, offset: nat, length: nat)

  /** What the checks make of one AU. */
  datatype AuCheck = Rejected(error: AuError) | Corrupted | Passed(au: Au)

  /** The AUs handed on so far and the error that ended the call, if any. */
  datatype Progress = Progress(aus: seq<Au>, error: Option<AuError>)

  /**
   * The checks on AU i of the superframe at in[b..] whose start table is t,
   * in the source's order.
   */
  function CheckAu(data: seq<byte>, b: nat, n: nat, t: seq<int>, i: nat): AuCheck
    requires i + 1 < |t|
  {
    if t[i + 1] < t[i] then Rejected(StartAddressInvalid)
    else
      var length := t[i + 1] - t[i] - 2;
      if length >= MaxAuLength || length < 0 then Rejected(FrameLengthOutOfRange(length))
      else if b + t[i] < 0 || b + t[i + 1] > |data| then Rejected(ReadsOutsideInput)
      else if CrcPasses(data[b + t[i]..], length) then Passed(Au(n, i, b + t[i], length))
      else Corrupted
  }

  /** The bytes of an AU without its CRC. */
  function AuBytes(data: seq<byte>, au: Au): seq<byte>
    requires au.offset + au.length <= |data|
  {
    data[au.offset..au.offset + au.length]
  }

  /** AUs 0 .. i-1 of one superframe: corrupted ones are dropped, the first rejected one stops. */
  function AusThrough(data: seq<byte>, b: nat, n: nat, t: seq<int>, i: nat): Progress
    requires i < |t|
  {
    if i == 0 then Progress([], None)
    else
      var p := AusThrough(data, b, n, t, i - 1);
      if p.error.Some? then p
      else match CheckAu(data, b, n, t, i - 1)
        case Rejected(e) => Progress(p.aus, Some(e))
        case Corrupted => p
        case Passed(au) => Progress(p.aus + [au], None)
  }

  /** Where superframe n of a call starts: general_work skips the first superframe of its input. */
  function SuperframeBase(sfs: nat, n: nat): nat
  {
    (n + 1) * sfs
  }

  /**
   * Whether the header of the superframe at in[b..] (the bytes its start
   * fields are read from) lies in the input. The longest layout, six AUs,
   * reads up to in[b + 10], so eleven bytes would do; twelve are asked for,
   * which a whole superframe of 110 * bit_rate_n bytes always holds.
   */
  predicate HeaderInside(data: seq<byte>, b: nat)
  {
    b + 12 <= |data|
  }

  /** Superframe n starts n * size bytes into `in`, which starts size bytes into the input. */
  lemma BaseSplit(sfs: nat, n: nat)
    ensures SuperframeBase(sfs, n) == sfs + n * sfs >= sfs
  {
  }

  /**
   * d_au_start after the header of superframe n as the block writes it,
   * from the array prev before; None when case 1's first start would be
   * written outside the ten entries (TableOverrunExactly).
   */
  function TableAsWritten(data: seq<byte>, sfs: nat, n: nat, prev: seq<int>): (r: Option<seq<int>>)
    requires |prev| == 10 && HeaderInside(data, SuperframeBase(sfs, n))
    ensures r.Some? ==> |r.value| == 10
  {
    BaseSplit(sfs, n);
    AuStartsAsWritten(data[sfs..], n * sfs, sfs, prev)
  }

  /** The write lands outside the array exactly for layout 1 once n * size reaches 10. */
  lemma TableOverrunExactly(data: seq<byte>, sfs: nat, n: nat, prev: seq<int>)
    requires |prev| == 10 && HeaderInside(data, SuperframeBase(sfs, n))
    ensures TableAsWritten(data, sfs, n, prev).None?
      <==> HeaderLayout(data[SuperframeBase(sfs, n) + 2]) == 1 && n * sfs >= 10
  {
    BaseSplit(sfs, n);
  }

  /** d_au_start once the header of superframe n has been read: unchanged when the write lands outside it. */
  function TableAfterHeader(data: seq<byte>, sfs: nat, n: nat, prev: seq<int>): (r: seq<int>)
    requires |prev| == 10 && HeaderInside(data, SuperframeBase(sfs, n))
    ensures |r| == 10
  {
    match TableAsWritten(data, sfs, n, prev)
    case None => prev
    case Some(t) => t
  }

  /**
   * The AUs of superframe n, whose header lies in the input, with the start
   * table prev before its header: the AU loop over the first NumAus + 1
   * entries of the table as written.
   */
  function SuperframeAus(data: seq<byte>, sfs: nat, n: nat, prev: seq<int>): Progress
    requires |prev| == 10 && HeaderInside(data, SuperframeBase(sfs, n))
  {
    var b := SuperframeBase(sfs, n);
    var num := NumAus(HeaderLayout(data[b + 2]));
    match TableAsWritten(data, sfs, n, prev)
    case None => Progress([], Some(WritesOutsideTable))
    case Some(t) => AusThrough(data, b, n, t[..num + 1], num)
  }

  /** What superframe n of a call comes to, from the table prev: None when its header lies outside the input. */
  function SuperframeOutcome(data: seq<byte>, sfs: nat, n: nat, prev: seq<int>): Option<Progress>
    requires |prev| == 10
  {
    if HeaderInside(data, SuperframeBase(sfs, n)) then Some(SuperframeAus(data, sfs, n, prev)) else None
  }

  /** d_au_start after the first h superframes, from init: each header rewrites it as the block writes it. */
  function StartTableAfter(data: seq<byte>, sfs: nat, h: nat, init: seq<int>): (r: seq<int>)
    requires |init| == 10
    ensures |r| == 10
  {
    if h == 0 then init
    else
      var prev := StartTableAfter(data, sfs, h - 1, init);
      if HeaderInside(data, SuperframeBase(sfs, h - 1)) then TableAfterHeader(data, sfs, h - 1, prev) else prev
  }

  /** The outcomes of superframes 0 .. count-1 of a call that starts from the table init. */
  function Outcomes(data: seq<byte>, sfs: nat, count: nat, init: seq<int>): (o: seq<Option<Progress>>)
    requires |init| == 10
    ensures |o| == count
  {
    seq(count, n requires 0 <= n < count => SuperframeOutcome(data, sfs, n, StartTableAfter(data, sfs, n, init)))
  }

  /** A call: the AUs handed on, the error that ended it, and how many headers it read. */
  datatype Call = Call(aus: seq<Au>, error: Option<AuError>, headers: nat)

  /** The superframes in turn, until one of them ends the call with an error. */
  function Combine(o: seq<Option<Progress>>): (c: Call)
    ensures c.headers <= |o|
    ensures c.error.None? ==> c.headers == |o|
  {
    if |o| == 0 then Call([], None, 0)
    else
      var c := Combine(o[..|o| - 1]);
      if c.error.Some? then c
      else match o[|o| - 1]
        case None => Call(c.aus, Some(ReadsOutsideInput), c.headers)
        case Some(q) => Call(c.aus + q.aus, q.error, c.headers + 1)
  }

  /** A call of general_work over count superframes, from the start table init. */
  function Run(data: seq<byte>, sfs: nat, count: nat, init: seq<int>): Call
    requires |init| == 10
  {
    Combine(Outcomes(data, sfs, count, init))
  }

  // ---------------------------------------------------------------------
  // What the checks guarantee.

  /** A passed AU is a whole frame inside the input, shorter than 960 bytes, whose CRC-16 holds. */
  predicate Sound(data: seq<byte>, au: Au)
  {
    au.length < MaxAuLength && au.offset + au.length + 2 <= |data|
    && CrcPasses(data[au.offset..], au.length)
  }

  lemma CheckAuSound(data: seq<byte>, b: nat, n: nat, t: seq<int>, i: nat)
    requires i + 1 < |t|
    ensures var c := CheckAu(data, b, n, t, i);
      c.Passed? ==> Sound(data, c.au) && c.au == Au(n, i, b + t[i], t[i + 1] - t[i] - 2)
  {
  }

  /** Every AU handed on from a superframe passed all checks. */
  lemma {:induction false} AusThroughSound(data: seq<byte>, b: nat, n: nat, t: seq<int>, i: nat)
    requires i < |t|
    ensures forall au | au in AusThrough(data, b, n, t, i).aus :: Sound(data, au) && au.superframe == n
  {
    if i > 0 {
      AusThroughSound(data, b, n, t, i - 1);
      CheckAuSound(data, b, n, t, i - 1);
    }
  }

  /** They come in order of their number in the superframe, all numbered below i. */
  lemma {:induction false} AusThroughOrdered(data: seq<byte>, b: nat, n: nat, t: seq<int>, i: nat)
    requires i < |t|
    ensures Ordered(AusThrough(data, b, n, t, i).aus, i)
  {
    if i > 0 {
      AusThroughOrdered(data, b, n, t, i - 1);
      var p := AusThrough(data, b, n, t, i - 1);
      var c := CheckAu(data, b, n, t, i - 1);
      if p.error.None? && c.Passed? {
        assert c.au.index == i - 1;
        OrderedAppend(p.aus, c.au, i);
      }
    }
  }

  /** Numbers increasing and below i. */
  predicate Ordered(aus: seq<Au>, i: nat)
  {
    && (forall j :: 0 <= j < |aus| ==> aus[j].index < i)
    && (forall j, k :: 0 <= j < k < |aus| ==> aus[j].index < aus[k].index)
  }

  lemma OrderedAppend(aus: seq<Au>, au: Au, i: nat)
    requires i > 0 && Ordered(aus, i - 1) && au.index == i - 1
    ensures Ordered(aus + [au], i)
  {
  }

  /** The AUs of superframe n: each sound, all from superframe n, by increasing number. */
  predicate SuperframeAusSound(data: seq<byte>, n: nat, q: Progress)
  {
    && (forall au | au in q.aus :: Sound(data, au) && au.superframe == n)
    && (forall j, k :: 0 <= j < k < |q.aus| ==> q.aus[j].index < q.aus[k].index)
  }

  /** Every outcome a superframe can come to is sound, whatever table it starts from. */
  lemma SuperframeSound(data: seq<byte>, sfs: nat, n: nat, prev: seq<int>)
    requires |prev| == 10
    ensures var oc := SuperframeOutcome(data, sfs, n, prev);
      oc.Some? ==> SuperframeAusSound(data, n, oc.value)
  {
    var b := SuperframeBase(sfs, n);
    if HeaderInside(data, b) {
      var num := NumAus(HeaderLayout(data[b + 2]));
      var r := TableAsWritten(data, sfs, n, prev);
      if r.Some? {
        var t := r.value[..num + 1];
        AusThroughSound(data, b, n, t, num);
        AusThroughOrdered(data, b, n, t, num);
      }
    }
  }

  /**
   * The block reads the table the header defines for the first superframe
   * of a call and, in every superframe, for layouts 0 and 3; then its AUs
   * are the AU loop over that table.
   */
  lemma BlockReadsStandardTable(data: seq<byte>, sfs: nat, n: nat, prev: seq<int>)
    requires |prev| == 10 && HeaderInside(data, SuperframeBase(sfs, n))
    requires n == 0 || HeaderLayout(data[SuperframeBase(sfs, n) + 2]) in {0, 3}
    ensures var b := SuperframeBase(sfs, n);
      && TableAgrees(TableAsWritten(data, sfs, n, prev), AuStarts(data, b, sfs))
      && SuperframeAus(data, sfs, n, prev) == AusThrough(data, b, n, AuStarts(data, b, sfs), NumAus(HeaderLayout(data[b + 2])))
  {
    var b, s, h := SuperframeBase(sfs, n), data[sfs..], n * sfs;
    AuStartsShift(data, sfs, n);
    assert s[h + 2] == data[b + 2];
    assert n == 0 ==> h == 0 && s[h + 8] == s[8];
    AsWrittenAgreesWhere(s, h, sfs, prev);
    StandardPrefix(data, sfs, n, prev);
  }

  /** When the block's table agrees with the header's, the AU loop reads exactly the header's table. */
  lemma StandardPrefix(data: seq<byte>, sfs: nat, n: nat, prev: seq<int>)
    requires |prev| == 10 && HeaderInside(data, SuperframeBase(sfs, n))
    requires TableAgrees(TableAsWritten(data, sfs, n, prev), AuStarts(data, SuperframeBase(sfs, n), sfs))
    ensures var b := SuperframeBase(sfs, n);
      SuperframeAus(data, sfs, n, prev) == AusThrough(data, b, n, AuStarts(data, b, sfs), NumAus(HeaderLayout(data[b + 2])))
  {
    var b := SuperframeBase(sfs, n);
    var t := AuStarts(data, b, sfs);
    AuStartsLayout(data, b, sfs);
    var r := TableAsWritten(data, sfs, n, prev).value;
    assert r[..|t|] == t;
  }

  /** Reading the standard's table through `in` at n * size reads it at the superframe's base. */
  lemma AuStartsShift(data: seq<byte>, sfs: nat, n: nat)
    requires HeaderInside(data, SuperframeBase(sfs, n))
    ensures sfs + n * sfs + 12 <= |data|
    ensures AuStarts(data[sfs..], n * sfs, sfs) == AuStarts(data, SuperframeBase(sfs, n), sfs)
  {
    BaseSplit(sfs, n);
    var s, h, b := data[sfs..], n * sfs, SuperframeBase(sfs, n);
    assert s[h + 2] == data[b + 2];
    assert s[h + 3] == data[b + 3] && s[h + 4] == data[b + 4] && s[h + 5] == data[b + 5];
    assert s[h + 6] == data[b + 6] && s[h + 7] == data[b + 7] && s[h + 8] == data[b + 8];
    assert s[h + 9] == data[b + 9] && s[h + 10] == data[b + 10];
  }

  /**
   * Later superframes as the block handles them, layout 1: the first start
   * would be written outside the array, so the call ends with
   * WritesOutsideTable and hands on nothing of that superframe.
   */
  lemma BlockLaterSingleLayout(data: seq<byte>, sfs: nat, n: nat, prev: seq<int>)
    requires |prev| == 10 && HeaderInside(data, SuperframeBase(sfs, n)) && n * sfs >= 10
    requires HeaderLayout(data[SuperframeBase(sfs, n) + 2]) == 1
    ensures SuperframeAus(data, sfs, n, prev) == Progress([], Some(WritesOutsideTable))
  {
    TableOverrunExactly(data, sfs, n, prev);
  }

  /**
   * Later superframes, layout 2: the fifth start takes in[8], byte 8 of the
   * first superframe, so the table differs from the header's whenever that
   * byte differs from the superframe's own byte 8.
   */
  lemma BlockLaterSixLayout(data: seq<byte>, sfs: nat, n: nat, prev: seq<int>)
    requires |prev| == 10 && HeaderInside(data, SuperframeBase(sfs, n)) && n * sfs >= 10
    requires HeaderLayout(data[SuperframeBase(sfs, n) + 2]) == 2 && data[sfs + 8] != data[SuperframeBase(sfs, n) + 8]
    ensures !TableAgrees(TableAsWritten(data, sfs, n, prev), AuStarts(data, SuperframeBase(sfs, n), sfs))
  {
    var b, s, h := SuperframeBase(sfs, n), data[sfs..], n * sfs;
    AuStartsShift(data, sfs, n);
    assert s[8] == data[sfs + 8] && s[h + 8] == data[b + 8] && s[h + 2] == data[b + 2];
    AsWrittenLaterSuperframes(s, h, sfs, prev);
  }

  /** Outcomes whose AUs are sound for the superframe they belong to. */
  predicate OutcomesSound(data: seq<byte>, o: seq<Option<Progress>>)
  {
    forall k :: 0 <= k < |o| && o[k].Some? ==> SuperframeAusSound(data, k, o[k].value)
  }

  /** Combining sound outcomes hands on sound AUs only, superframe by superframe. */
  lemma {:induction false} CombineSound(data: seq<byte>, o: seq<Option<Progress>>)
    requires OutcomesSound(data, o)
    ensures forall au | au in Combine(o).aus :: Sound(data, au) && au.superframe < |o|
    ensures InCallOrder(Combine(o).aus)
  {
    if |o| > 0 {
      var o' := o[..|o| - 1];
      assert OutcomesSound(data, o') by {
        forall k | 0 <= k < |o'| && o'[k].Some?
          ensures SuperframeAusSound(data, k, o'[k].value)
        {
          assert o'[k] == o[k];
        }
      }
      CombineSound(data, o');
      var c := Combine(o');
      if c.error.None? && o[|o| - 1].Some? {
        var q := o[|o| - 1].value;
        assert SuperframeAusSound(data, |o| - 1, q);
        CallOrderAppend(c.aus, q.aus, |o| - 1);
        assert Combine(o).aus == c.aus + q.aus;
      }
    }
  }

  /** Every AU of a call passed all checks, comes from one of its superframes, and they come in call order. */
  lemma RunSound(data: seq<byte>, sfs: nat, count: nat, init: seq<int>)
    requires |init| == 10
    ensures forall au | au in Run(data, sfs, count, init).aus :: Sound(data, au) && au.superframe < count
    ensures InCallOrder(Run(data, sfs, count, init).aus)
  {
    var o := Outcomes(data, sfs, count, init);
    forall k | 0 <= k < count && o[k].Some?
      ensures SuperframeAusSound(data, k, o[k].value)
    {
      SuperframeSound(data, sfs, k, StartTableAfter(data, sfs, k, init));
    }
    CombineSound(data, o);
  }

  /** AUs in the order the call handles them: superframe by superframe, and by number within one. */
  predicate InCallOrder(aus: seq<Au>)
  {
    forall j, k :: 0 <= j < k < |aus| ==>
      aus[j].superframe < aus[k].superframe
      || (aus[j].superframe == aus[k].superframe && aus[j].index < aus[k].index)
  }

  lemma CallOrderAppend(p: seq<Au>, q: seq<Au>, n: nat)
    requires InCallOrder(p) && forall au | au in p :: au.superframe < n
    requires forall au | au in q :: au.superframe == n
    requires forall j, k :: 0 <= j < k < |q| ==> q[j].index < q[k].index
    ensures InCallOrder(p + q)
  {
    var r := p + q;
    forall j, k | 0 <= j < k < |r|
      ensures r[j].superframe < r[k].superframe || (r[j].superframe == r[k].superframe && r[j].index < r[k].index)
    {
      if k < |p| {
        assert r[j] == p[j] && r[k] == p[k];
      } else if j < |p| {
        assert r[j] == p[j] && r[j] in p && r[k] == q[k - |p|] && r[k] in q;
      } else {
        assert r[j] == q[j - |p|] && r[k] == q[k - |p|] && r[j] in q && r[k] in q;
      }
    }
  }

  /** A call whose first m superframes ended it with an error is what those m superframes came to. */
  lemma RunStopped(data: seq<byte>, sfs: nat, count: nat, init: seq<int>, o: seq<Option<Progress>>, m: nat)
    requires |init| == 10 && o == Outcomes(data, sfs, count, init)
    requires m <= count && Combine(o[..m]).error.Some?
    ensures Run(data, sfs, count, init) == Combine(o[..m])
  {
    CombineStops(o, m);
  }

  /** A call is what all its superframes come to. */
  lemma RunWhole(data: seq<byte>, sfs: nat, count: nat, init: seq<int>, o: seq<Option<Progress>>)
    requires |init| == 10 && o == Outcomes(data, sfs, count, init)
    ensures Run(data, sfs, count, init) == Combine(o[..count])
  {
    assert o[..count] == o;
  }

  /** Once a superframe ended the call, the later ones change nothing. */
  lemma {:induction false} CombineStops(o: seq<Option<Progress>>, m: nat)
    requires m <= |o| && Combine(o[..m]).error.Some?
    ensures Combine(o) == Combine(o[..m])
  {
    if |o| > m {
      var o' := o[..|o| - 1];
      assert o'[..m] == o[..m];
      CombineStops(o', m);
      assert Combine(o') == Combine(o[..m]);
    } else {
      assert o[..m] == o;
    }
  }

  /** One more superframe. */
  lemma CombineNext(o: seq<Option<Progress>>, n: nat)
    requires n < |o|
    ensures var c := Combine(o[..n]);
      Combine(o[..n + 1]) ==
        if c.error.Some? then c
        else match o[n]
          case None => Call(c.aus, Some(ReadsOutsideInput), c.headers)
          case Some(q) => Call(c.aus + q.aus, q.error, c.headers + 1)
  {
    assert o[..n + 1][..n] == o[..n];
  }

  /**
   * The other direction: when no AU before i is rejected, exactly the AUs
   * whose CRC holds are handed on, and no error is raised.
   */
  lemma {:induction false} AusThroughComplete(data: seq<byte>, b: nat, n: nat, t: seq<int>, i: nat)
    requires i < |t|
    requires forall j :: 0 <= j < i ==> !CheckAu(data, b, n, t, j).Rejected?
    ensures var p := AusThrough(data, b, n, t, i);
      && p.error.None?
      && (forall j :: 0 <= j < i && CheckAu(data, b, n, t, j).Passed? ==> CheckAu(data, b, n, t, j).au in p.aus)
  {
    if i > 0 {
      AusThroughComplete(data, b, n, t, i - 1);
    }
  }

  /** An error is the rejection of the first AU that fails a sanity check. */
  lemma {:induction false} AusThroughError(data: seq<byte>, b: nat, n: nat, t: seq<int>, i: nat)
    requires i < |t|
    ensures var p := AusThrough(data, b, n, t, i);
      p.error.Some? ==> exists j :: (0 <= j < i && CheckAu(data, b, n, t, j) == Rejected(p.error.value)
        && forall k :: 0 <= k < j ==> !CheckAu(data, b, n, t, k).Rejected?)
  {
    if i > 0 {
      AusThroughError(data, b, n, t, i - 1);
      var p := AusThrough(data, b, n, t, i - 1);
      if p.error.None? {
        AusThroughNoError(data, b, n, t, i - 1);
      }
    }
  }

  /** Without an error, no AU so far was rejected. */
  lemma {:induction false} AusThroughNoError(data: seq<byte>, b: nat, n: nat, t: seq<int>, i: nat)
    requires i < |t| && AusThrough(data, b, n, t, i).error.None?
    ensures forall k :: 0 <= k < i ==> !CheckAu(data, b, n, t, k).Rejected?
  {
    if i > 0 {
      AusThroughNoError(data, b, n, t, i - 1);
    }
  }

  /**
   * An AU a sender framed correctly passes: a start table entry no smaller
   * than the one before, a payload below 960 bytes and its CRC trailer
   * right after it.
   */
  lemma FramedAuPasses(data: seq<byte>, b: nat, n: nat, t: seq<int>, i: nat, payload: seq<byte>)
    requires i + 1 < |t| && 0 <= b + t[i] && b + t[i + 1] <= |data|
    requires t[i + 1] == t[i] + |payload| + 2 && |payload| < MaxAuLength
    requires data[b + t[i]..b + t[i + 1]] == payload + CrcTrailer(payload)
    ensures CheckAu(data, b, n, t, i) == Passed(Au(n, i, b + t[i], |payload|))
    ensures AuBytes(data, Au(n, i, b + t[i], |payload|)) == payload
  {
    var o := b + t[i];
    CrcRoundTrip(payload);
    var m := payload + CrcTrailer(payload);
    assert data[o..][..|payload| + 2] == m;
    assert data[o..][..|payload|] == m[..|payload|];
    assert CheckWord(data[o..], |payload|) == CheckWord(m, |payload|);
  }

  // ---------------------------------------------------------------------
  // The block.

  /** The checks of one turn of the AU loop on AU i of the table t, in the source's order, and its CRC check. */
  method CheckAuAt(input: seq<byte>, b: nat, n: nat, t: seq<int>, i: nat) returns (c: AuCheck)
    requires i + 1 < |t|
    ensures c == CheckAu(input, b, n, t, i)
  {
    if t[i + 1] < t[i] {
      return Rejected(StartAddressInvalid);
    }
    var length := t[i + 1] - t[i] - 2;
    if length >= MaxAuLength || length < 0 {
      return Rejected(FrameLengthOutOfRange(length));
    }
    if b + t[i] < 0 || b + t[i + 1] > |input| {
      return Rejected(ReadsOutsideInput);
    }
    var ok := Crc16(input[b + t[i]..], length);
    if ok {
      c := Passed(Au(n, i, b + t[i], length));
    } else {
      c := Corrupted;
    }
  }

  class DecodeBs {
    /** d_superframe_size: 110 bytes per bit_rate_n (8 kbit/s unit). */
    const superframeSize: nat
    /** d_dac_rate, d_sbr_flag, d_aac_channel_mode, d_ps_flag, d_mpeg_surround of the last header read. */
    var parameters: AudioParameters
    /** d_num_aus of the last header read. */
    var numAus: nat
    /** d_au_start. */
    const auStart: array<int>
    /** The AUs handed to handle_aac_frame so far, in order (the decoding itself is not modelled). */
    var handled: seq<Au>

    /** The constructor: superframe size 110 * bit_rate_n; nothing read yet. */
    constructor (bitRateN: nat)
      ensures superframeSize == 110 * bitRateN && auStart.Length == 10 && fresh(auStart)
      ensures numAus == 0 && handled == []
    {
      superframeSize := 110 * bitRateN;
      parameters := AudioParameters(0, 0, 0, 0, 0);
      numAus := 0;
      auStart := new int[10];
      handled := [];
    }

    /** forecast: as many input bytes as output items are asked for. */
    function Forecast(noutput: nat): nat
    {
      noutput
    }

    /**
     * The header of superframe n, read from in[n * size..]: the audio
     * parameters, the number of AUs and the start table as the switch on
     * 2 * dac_rate + sbr_flag writes it; case 1 past the first superframe
     * would write outside the array and ends the call instead.
     */
    method ReadHeader(input: seq<byte>, n: nat) returns (error: Option<AuError>)
      requires auStart.Length == 10 && HeaderInside(input, SuperframeBase(superframeSize, n))
      modifies this`parameters, this`numAus, auStart
      ensures HeaderFieldsFrom(input, SuperframeBase(superframeSize, n))
      ensures var r := TableAsWritten(input, superframeSize, n, old(auStart[..]));
        && (r.None? ==> error == Some(WritesOutsideTable) && auStart[..] == old(auStart[..]))
        && (r.Some? ==> error.None? && auStart[..] == r.value)
    {
      var sfs := superframeSize;
      BaseSplit(sfs, n);
      var inn, h := input[sfs..], n * sfs;
      assert inn[h + 2] == input[SuperframeBase(sfs, n) + 2];
      parameters := AudioParametersOf(inn[h + 2]);
      var layout := HeaderLayout(inn[h + 2]);
      numAus := NumAus(layout);
      if layout == 1 && h >= 10 {
        return Some(WritesOutsideTable);
      }
      WriteStarts(inn, h, layout);
      error := None;
    }

    /**
     * The switch on 2 * dac_rate + sbr_flag for the header at in[h..]: the
     * start table of its layout, written entry by entry into d_au_start.
     */
    method WriteStarts(inn: seq<byte>, h: nat, layout: nat)
      requires auStart.Length == 10 && h + 11 <= |inn| && layout == HeaderLayout(inn[h + 2])
      requires layout == 1 ==> h < 10
      modifies auStart
      ensures AuStartsAsWritten(inn, h, superframeSize, old(auStart[..])).Some?
      ensures auStart[..] == AuStartsAsWritten(inn, h, superframeSize, old(auStart[..])).value
    {
      var sfs := superframeSize;
      ghost var prev := auStart[..];
      if layout == 1 {
        auStart[h] := 5;
        auStart[1] := HighField(inn, h + 3);
        auStart[2] := sfs;
        assert forall k :: 0 <= k < 10 ==> auStart[k] == AsWrittenEntry(inn, h, sfs, prev, k);
      } else if layout == 2 {
        auStart[0] := 11;
        auStart[1] := HighField(inn, h + 3);
        auStart[2] := LowField(inn, h + 4, h + 5);
        auStart[3] := HighField(inn, h + 6);
        auStart[4] := LowField(inn, h + 7, 8);
        auStart[5] := HighField(inn, h + 9);
        auStart[6] := sfs;
        assert forall k :: 0 <= k < 10 ==> auStart[k] == AsWrittenEntry(inn, h, sfs, prev, k);
      } else if layout == 3 {
        auStart[0] := 6;
        auStart[1] := HighField(inn, h + 3);
        auStart[2] := LowField(inn, h + 4, h + 5);
        auStart[3] := sfs;
        assert forall k :: 0 <= k < 10 ==> auStart[k] == AsWrittenEntry(inn, h, sfs, prev, k);
      } else {
        auStart[0] := 8;
        auStart[1] := HighField(inn, h + 3);
        auStart[2] := LowField(inn, h + 4, h + 5);
        auStart[3] := HighField(inn, h + 6);
        auStart[4] := sfs;
        assert forall k :: 0 <= k < 10 ==> auStart[k] == AsWrittenEntry(inn, h, sfs, prev, k);
      }
      assert auStart[..] == AuStartsAsWritten(inn, h, sfs, prev).value;
    }

    /**
     * The AU loop of one superframe, which reads its table from d_au_start:
     * the AUs it hands to handle_aac_frame, in order, and the error that
     * ends it, if any.
     */
    method CheckAus(input: seq<byte>, b: nat, n: nat) returns (error: Option<AuError>, aus: seq<Au>)
      requires auStart.Length == 10 && numAus + 1 <= 10
      ensures var p := AusThrough(input, b, n, auStart[..numAus + 1], numAus);
        aus == p.aus && error == p.error
    {
      var t := auStart[..numAus + 1];
      aus := [];
      var i := 0;
      error := None;
      while i < numAus
        invariant i <= numAus
        invariant AusThrough(input, b, n, t, i) == Progress(aus, None)
      {
        var c := CheckAuAt(input, b, n, t, i);
        AusThroughNext(input, b, n, t, i, aus);
        match c {
          case Rejected(e) =>
            AusThroughStops(input, b, n, t, i + 1, numAus);
            return Some(e), aus;
          case Corrupted =>
          case Passed(au) =>
            aus := aus + [au];
        }
        i := i + 1;
      }
    }

    /** One superframe of general_work: its header, when it lies in the input, then its AUs. */
    method Superframe(input: seq<byte>, n: nat, ghost o: seq<Option<Progress>>, ghost start: seq<Au>,
                      ghost init: seq<int>, ghost p0: AudioParameters, ghost na0: nat) returns (error: Option<AuError>)
      requires auStart.Length == 10 && |init| == 10
      requires n < |o| && o[n] == SuperframeOutcome(input, superframeSize, n, StartTableAfter(input, superframeSize, n, init))
      requires Combine(o[..n]) == Call(Combine(o[..n]).aus, None, n)
      requires Ended(input, Combine(o[..n]), start, init, p0, na0)
      modifies this`parameters, this`numAus, auStart, this`handled
      ensures Combine(o[..n + 1]).error == error
      ensures Ended(input, Combine(o[..n + 1]), start, init, p0, na0)
      ensures error.None? ==> Combine(o[..n + 1]).headers == n + 1
    {
      ghost var c := Combine(o[..n]);
      CombineNext(o, n);
      var b := SuperframeBase(superframeSize, n);
      if !HeaderInside(input, b) {
        return Some(ReadsOutsideInput);
      }
      ghost var prev := auStart[..];
      ghost var q := SuperframeAus(input, superframeSize, n, prev);
      assert o[n] == Some(q);
      error := ReadAndCheck(input, n);
      StepInside(input, superframeSize, o, n, start, init, prev, q, handled, auStart[..]);
      EndedAfterHeader(input, superframeSize, Combine(o[..n + 1]), n, start, init, p0, na0,
                       handled, auStart[..], parameters, numAus);
    }

    /** The header of superframe n, which lies in the input, then its AU loop unless the header ended the call. */
    method ReadAndCheck(input: seq<byte>, n: nat) returns (error: Option<AuError>)
      requires auStart.Length == 10 && HeaderInside(input, SuperframeBase(superframeSize, n))
      modifies this`parameters, this`numAus, auStart, this`handled
      ensures var q := SuperframeAus(input, superframeSize, n, old(auStart[..]));
        handled == old(handled) + q.aus && error == q.error
      ensures auStart[..] == TableAfterHeader(input, superframeSize, n, old(auStart[..]))
      ensures HeaderFieldsFrom(input, SuperframeBase(superframeSize, n))
    {
      error := ReadHeader(input, n);
      if error.Some? {
        return;
      }
      var b := SuperframeBase(superframeSize, n);
      assert auStart[..numAus + 1] == auStart[..][..numAus + 1];
      var aus;
      error, aus := CheckAus(input, b, n);
      handled := handled + aus;
    }

    /**
     * general_work: superframe n of the call is read from in[(n+1) * size..];
     * the call consumes noutput * size / 3840 bytes unless it throws.
     */
    method GeneralWork(input: seq<byte>, noutput: nat) returns (error: Option<AuError>, consumed: nat)
      requires auStart.Length == 10
      modifies this`parameters, this`numAus, auStart, this`handled
      ensures var c := Run(input, superframeSize, noutput / SamplesPerSuperframe, old(auStart[..]));
        && error == c.error
        && Ended(input, c, old(handled), old(auStart[..]), old(parameters), old(numAus))
      ensures error.None? ==> consumed == ConsumedBytes(noutput, superframeSize)
      ensures error.Some? ==> consumed == 0
    {
      var count := noutput / SamplesPerSuperframe;
      ghost var start, init, p0, na0 := handled, auStart[..], parameters, numAus;
      ghost var o := Outcomes(input, superframeSize, count, init);
      var n := 0;
      assert o[..0] == [];
      while n < count
        invariant n <= count && Combine(o[..n]) == Call(Combine(o[..n]).aus, None, n)
        invariant Ended(input, Combine(o[..n]), start, init, p0, na0)
      {
        var e := Superframe(input, n, o, start, init, p0, na0);
        if e.Some? {
          RunStopped(input, superframeSize, count, init, o, n + 1);
          return e, 0;
        }
        n := n + 1;
      }
      RunWhole(input, superframeSize, count, init, o);
      error, consumed := None, ConsumedBytes(noutput, superframeSize);
    }

    /** The fields after a call c that started from handled AUs start, table init and the header fields p0, na0. */
    ghost predicate Ended(input: seq<byte>, c: Call, start: seq<Au>, init: seq<int>, p0: AudioParameters, na0: nat)
      reads this, auStart
      requires |init| == 10
    {
      EndedWith(input, superframeSize, c, start, init, p0, na0, handled, auStart[..], parameters, numAus)
    }

    /** The header fields hold what the header at in[b..] says. */
    predicate HeaderFieldsFrom(input: seq<byte>, b: nat)
      reads this
    {
      FieldsFrom(input, b, parameters, numAus)
    }
  }

  /** Once a superframe raised an error, AUs after it change nothing. */
  lemma {:induction false} AusThroughStops(data: seq<byte>, b: nat, n: nat, t: seq<int>, i: nat, m: nat)
    requires i <= m < |t| && AusThrough(data, b, n, t, i).error.Some?
    ensures AusThrough(data, b, n, t, m) == AusThrough(data, b, n, t, i)
  {
    if m > i {
      AusThroughStops(data, b, n, t, i, m - 1);
    }
  }

  /** One more AU of a superframe whose earlier AUs raised no error: the check on AU i decides. */
  lemma AusThroughNext(data: seq<byte>, b: nat, n: nat, t: seq<int>, i: nat, aus: seq<Au>)
    requires i + 1 < |t| && AusThrough(data, b, n, t, i) == Progress(aus, None)
    ensures CheckAu(data, b, n, t, i).Rejected? ==>
      AusThrough(data, b, n, t, i + 1) == Progress(aus, Some(CheckAu(data, b, n, t, i).error))
    ensures CheckAu(data, b, n, t, i).Corrupted? ==> AusThrough(data, b, n, t, i + 1) == Progress(aus, None)
    ensures CheckAu(data, b, n, t, i).Passed? ==>
      AusThrough(data, b, n, t, i + 1) == Progress(aus + [CheckAu(data, b, n, t, i).au], None)
  {
  }

  /**
   * What a call that does not throw consumes: noutput * size / 3840 bytes,
   * the whole superframes its output stands for plus the size's share of
   * any partial one.
   */
  function ConsumedBytes(noutput: nat, sfs: nat): (c: nat)
    ensures c >= (noutput / SamplesPerSuperframe) * sfs
    ensures c < (noutput / SamplesPerSuperframe + 1) * sfs || sfs == 0
  {
    MulNonNegative(noutput, sfs);
    ConsumedBounds(noutput, sfs);
    noutput * sfs / SamplesPerSuperframe
  }

  lemma MulNonNegative(a: nat, b: nat)
    ensures a * b >= 0
  {
  }

  lemma ConsumedBounds(noutput: nat, sfs: nat)
    ensures var c := noutput * sfs / SamplesPerSuperframe;
      c >= (noutput / SamplesPerSuperframe) * sfs
      && (c < (noutput / SamplesPerSuperframe + 1) * sfs || sfs == 0)
  {
    var m := SamplesPerSuperframe;
    var q, r := noutput / m, noutput % m;
    QuotientSplit(noutput, sfs, q, r);
    if sfs > 0 {
      ProductBelow(r, sfs);
      QuotientBelow(r * sfs, sfs);
    }
  }

  lemma QuotientSplit(noutput: nat, sfs: nat, q: nat, r: nat)
    requires q == noutput / SamplesPerSuperframe && r == noutput % SamplesPerSuperframe
    ensures noutput * sfs / SamplesPerSuperframe == q * sfs + (r * sfs) / SamplesPerSuperframe
  {
    var m := SamplesPerSuperframe;
    var d, e := (r * sfs) / m, (r * sfs) % m;
    assert noutput * sfs == (q * sfs + d) * m + e by {
      assert noutput == q * m + r;
      assert r * sfs == d * m + e;
      Distribute(q, m, r, sfs);
    }
    DivUnique(noutput * sfs, m, q * sfs + d, e);
  }

  lemma ProductBelow(r: nat, sfs: nat)
    requires r < SamplesPerSuperframe && sfs > 0
    ensures r * sfs < SamplesPerSuperframe * sfs
  {
  }

  lemma QuotientBelow(x: nat, k: nat)
    requires x < SamplesPerSuperframe * k
    ensures x / SamplesPerSuperframe < k
  {
  }

  lemma Distribute(q: int, m: int, r: int, s: int)
    ensures (q * m + r) * s == (q * s) * m + r * s
  {
  }

  /** Header fields that hold what the header at in[b..] says. */
  predicate FieldsFrom(input: seq<byte>, b: nat, parameters: AudioParameters, numAus: nat)
  {
    HeaderInside(input, b)
    && parameters == AudioParametersOf(input[b + 2])
    && numAus == NumAus(HeaderLayout(input[b + 2]))
  }

  /**
   * The decoder's state after a call c that started from the handed-on AUs
   * start, the table init and the header fields p0, na0.
   */
  ghost predicate EndedWith(input: seq<byte>, sfs: nat, c: Call, start: seq<Au>, init: seq<int>,
                            p0: AudioParameters, na0: nat,
                            handled: seq<Au>, table: seq<int>, parameters: AudioParameters, numAus: nat)
    requires |init| == 10
  {
    && handled == start + c.aus
    && table == StartTableAfter(input, sfs, c.headers, init)
    && (c.headers == 0 ==> parameters == p0 && numAus == na0)
    && (c.headers > 0 ==> FieldsFrom(input, SuperframeBase(sfs, c.headers - 1), parameters, numAus))
  }

  /** A superframe whose header lies in the input adds its outcome to the call and its header to the table. */
  lemma StepInside(input: seq<byte>, sfs: nat, o: seq<Option<Progress>>, n: nat, start: seq<Au>, init: seq<int>,
                   prev: seq<int>, q: Progress, handled: seq<Au>, table: seq<int>)
    requires |init| == 10 && prev == StartTableAfter(input, sfs, n, init)
    requires n < |o| && o[n] == Some(q) && HeaderInside(input, SuperframeBase(sfs, n))
    requires Combine(o[..n]) == Call(Combine(o[..n]).aus, None, n)
    requires handled == start + Combine(o[..n]).aus + q.aus
    requires table == TableAfterHeader(input, sfs, n, prev)
    ensures var c := Combine(o[..n + 1]); c.headers == n + 1 && handled == start + c.aus && c.error == q.error
    ensures table == StartTableAfter(input, sfs, n + 1, init)
  {
    CombineInside(o, n, q);
    TableStep(input, sfs, n, init);
  }

  /** The state after a call whose last header read was that of superframe n. */
  lemma EndedAfterHeader(input: seq<byte>, sfs: nat, c: Call, n: nat, start: seq<Au>, init: seq<int>,
                         p0: AudioParameters, na0: nat,
                         handled: seq<Au>, table: seq<int>, parameters: AudioParameters, numAus: nat)
    requires |init| == 10 && c.headers == n + 1 && handled == start + c.aus
    requires table == StartTableAfter(input, sfs, n + 1, init)
    requires FieldsFrom(input, SuperframeBase(sfs, n), parameters, numAus)
    ensures EndedWith(input, sfs, c, start, init, p0, na0, handled, table, parameters, numAus)
  {
    var h := c.headers - 1;
    assert h == n;
  }

  /** A superframe after error-free ones adds its AUs and its error, and counts its header. */
  lemma CombineInside(o: seq<Option<Progress>>, n: nat, q: Progress)
    requires n < |o| && o[n] == Some(q) && Combine(o[..n]).error.None?
    ensures Combine(o[..n + 1]) == Call(Combine(o[..n]).aus + q.aus, q.error, Combine(o[..n]).headers + 1)
  {
    CombineNext(o, n);
  }

  /** The table after one more header that lies in the input. */
  lemma TableStep(data: seq<byte>, sfs: nat, n: nat, init: seq<int>)
    requires |init| == 10 && HeaderInside(data, SuperframeBase(sfs, n))
    ensures StartTableAfter(data, sfs, n + 1, init)
      == TableAfterHeader(data, sfs, n, StartTableAfter(data, sfs, n, init))
  {
  }
}
