/**
 * The frequency-offset synchroniser: the same acquisition as the OFDM
 * synchroniser (delayed correlation, NULL symbol, correlation peak), but
 * instead of passing samples on it writes one frequency offset per symbol:
 * one at the start of a frame and one at every symbol boundary whose
 * correlation is still high, until the frame has num_ofdm_symbols of them.
 * A boundary with a low correlation adds a "Lost" tag and returns to
 * acquisition.
 */
module SynchronizationFf {
  import opened Signal
  import opened DelayedCorrelation

  /**
   * d_wait_for_NULL (acquisition), d_on_triangle, d_NULL_detected,
   * d_NULL_symbol_energy, d_frequency_offset, d_frame_count and
   * d_frame_length_count.
   */
  datatype Control = Control(waitForNull: bool, onTriangle: bool, nullDetected: bool, nullSymbolEnergy: real,
                             frequencyOffset: real, frameCount: int, frameLengthCount: int)

  /** The whole state of the block: moving sums, the last magnitude and the controller. */
  datatype SyncState = SyncState(acc: Accumulators, magnitude: Magnitude, ctl: Control)

  datatype TagKind = Start | Lost

  /** A stream tag: its output offset within the call, which the block counts in input samples, and its key. */
  datatype Tag = Tag(offset: nat, kind: TagKind)

  /** What one input sample does: the next state, the value written if any, and the tag added if any. */
  datatype Outcome = Outcome(next: SyncState, out: Option<real>, tag: Option<Tag>)

  /** The block's parameters. */
  datatype Config = Config(symbolLength: nat, cyclicPrefixLength: nat, numOfdmSymbols: int, fm: FloatMath)
  {
    predicate Ok() { 0 < cyclicPrefixLength }
    /** Samples per symbol including the cyclic prefix. */
    function Period(): nat { symbolLength + cyclicPrefixLength }
  }

  /**
   * The state between samples: the moving-sum counter in [0, 100001]; the
   * frame count at least 1 and below num_ofdm_symbols unless it is 1; in
   * acquisition both counts at their reset values, in tracking the sample
   * count inside the symbol.
   */
  predicate WellFormed(cfg: Config, s: SyncState)
  {
    0 <= s.acc.counter <= 100001
    && 1 <= s.ctl.frameCount && (s.ctl.frameCount == 1 || s.ctl.frameCount < cfg.numOfdmSymbols)
    && (s.ctl.waitForNull ==> s.ctl.frameCount == 1 && s.ctl.frameLengthCount == 0)
    && (!s.ctl.waitForNull ==> 0 <= s.ctl.frameLengthCount < cfg.Period())
  }

  /** One iteration of the loop of general_work, for the sample at i. */
  function SampleStep(cfg: Config, s: SyncState, input: seq<Complex>, i: nat): (r: Outcome)
    requires cfg.Ok() && i + cfg.Period() <= |input|
    ensures WellFormed(cfg, s) ==> WellFormed(cfg, r.next)
    ensures r.tag.Some? ==> r.tag.value.offset == i && r.out.Some? == (r.tag.value.kind == Start)
    ensures r.out.Some? ==> !r.next.ctl.waitForNull || r.next.ctl.frameCount == 1
  {
    var L, cp := cfg.symbolLength, cfg.cyclicPrefixLength;
    if s.ctl.waitForNull then
      var acc := Step(s.acc, input, i, L, cp, false);
      var m := MagnitudeOf(acc);
      var d := Detect(s.ctl.onTriangle, m);
      if d.start then
        if s.ctl.nullDetected && acc.energyPrefix > s.ctl.nullSymbolEnergy * 2.0 then
          var offset := FrequencyOffset(cfg.fm, acc.correlation);
          Outcome(SyncState(acc, m, s.ctl.(onTriangle := d.onTriangle, frequencyOffset := offset,
                                          nullDetected := false, waitForNull := false)),
                  Some(offset), Some(Tag(i, Start)))
        else
          Outcome(SyncState(acc, m, s.ctl.(onTriangle := d.onTriangle)), None, None)
      else if !s.ctl.nullDetected && NullRatio(acc.energyPrefix, acc.energyRepetition) then
        Outcome(SyncState(acc, m, s.ctl.(onTriangle := d.onTriangle, nullSymbolEnergy := acc.energyPrefix,
                                        nullDetected := true)),
                None, None)
      else
        Outcome(SyncState(acc, m, s.ctl.(onTriangle := d.onTriangle)), None, None)
    else
      var count := s.ctl.frameLengthCount + 1;
      if count >= L + cp then
        var acc := Step(s.acc, input, i, L, cp, true);
        var m := MagnitudeOf(acc);
        if Above(m, 0.5) then
          var offset := FrequencyOffset(cfg.fm, acc.correlation);
          var frames := s.ctl.frameCount + 1;
          if frames >= cfg.numOfdmSymbols then
            Outcome(SyncState(acc, m, s.ctl.(frameLengthCount := 0, frequencyOffset := offset, frameCount := 1,
                                            waitForNull := true)),
                    Some(offset), None)
          else
            Outcome(SyncState(acc, m, s.ctl.(frameLengthCount := 0, frequencyOffset := offset, frameCount := frames)),
                    Some(offset), None)
        else
          Outcome(SyncState(acc, m, s.ctl.(frameLengthCount := 0, frameCount := 1, waitForNull := true)),
                  None, Some(Tag(i, Lost)))
      else
        Outcome(SyncState(s.acc, s.magnitude, s.ctl.(frameLengthCount := count)), None, None)
  }

  /**
   * The state, the values written and the tags added after the first n
   * samples of a call, and where in the output the current frame's values
   * begin (negative for a frame begun in an earlier call).
   */
  datatype Trace = Trace(state: SyncState, out: seq<real>, tags: seq<Tag>, frameStart: int)

  /** The trace of a call before its first sample, from state s0. */
  function Initial(s0: SyncState): Trace
  {
    Trace(s0, [], [], -s0.ctl.frameCount)
  }

  /** The trace after one more sample, the one at i. */
  function Next(cfg: Config, t: Trace, input: seq<Complex>, i: nat): Trace
    requires cfg.Ok() && i + cfg.Period() <= |input|
  {
    var o := SampleStep(cfg, t.state, input, i);
    Trace(o.next,
          t.out + (if o.out.Some? then [o.out.value] else []),
          t.tags + (if o.tag.Some? then [o.tag.value] else []),
          if t.state.ctl.waitForNull && !o.next.ctl.waitForNull then |t.out| else t.frameStart)
  }

  /** The block's loop body as a value: the sample at i advances the trace (samples beyond the forecast do not occur). */
  function Advance(cfg: Config, input: seq<Complex>): (Trace, nat) -> Trace
  {
    (t: Trace, i: nat) => if cfg.Ok() && i + cfg.Period() <= |input| then Next(cfg, t, input, i) else t
  }

  /** The trace of a call after its first n samples, from state s0. */
  function Run(cfg: Config, s0: SyncState, input: seq<Complex>, n: nat): Trace
  {
    Iterate(Advance(cfg, input), Initial(s0), 0, n)
  }

  /** One more sample of a call is one more Next. */
  lemma RunStep(cfg: Config, s0: SyncState, input: seq<Complex>, n: nat)
    requires cfg.Ok() && n + cfg.Period() <= |input|
    ensures Run(cfg, s0, input, n + 1) == Next(cfg, Run(cfg, s0, input, n), input, n)
  {
  }

  /**
   * Acquisition ends exactly on a detected start while a NULL symbol has been
   * seen and the prefix energy exceeds twice the NULL symbol's energy; the
   * switch writes the new frequency offset, adds a "Start" tag at output
   * offset i, the input index, and clears the NULL flag. Nothing else in acquisition writes or tags.
   */
  lemma FrameStart(cfg: Config, s: SyncState, input: seq<Complex>, i: nat)
    requires cfg.Ok() && i + cfg.Period() <= |input| && s.ctl.waitForNull
    ensures var r := SampleStep(cfg, s, input, i);
      var acc := Step(s.acc, input, i, cfg.symbolLength, cfg.cyclicPrefixLength, false);
      (!r.next.ctl.waitForNull <==>
         (Detect(s.ctl.onTriangle, MagnitudeOf(acc)).start
          && s.ctl.nullDetected && acc.energyPrefix > s.ctl.nullSymbolEnergy * 2.0))
      && (!r.next.ctl.waitForNull ==>
            r.out == Some(FrequencyOffset(cfg.fm, acc.correlation)) && r.tag == Some(Tag(i, Start))
            && !r.next.ctl.nullDetected && r.next.ctl.frameCount == s.ctl.frameCount)
      && (r.next.ctl.waitForNull ==> r.out.None? && r.tag.None?)
  {
  }

  /**
   * The NULL flag is raised only in acquisition, on a sample without a
   * detected start, when the prefix energy is below a tenth of the repetition
   * energy; the prefix energy is then kept as the NULL symbol's energy.
   */
  lemma NullDetection(cfg: Config, s: SyncState, input: seq<Complex>, i: nat)
    requires cfg.Ok() && i + cfg.Period() <= |input| && !s.ctl.nullDetected
    ensures var r := SampleStep(cfg, s, input, i);
      var acc := Step(s.acc, input, i, cfg.symbolLength, cfg.cyclicPrefixLength, false);
      r.next.ctl.nullDetected <==>
        (s.ctl.waitForNull && !Detect(s.ctl.onTriangle, MagnitudeOf(acc)).start
         && NullRatio(acc.energyPrefix, acc.energyRepetition))
    ensures var r := SampleStep(cfg, s, input, i);
      r.next.ctl.nullDetected ==> r.next.ctl.nullSymbolEnergy == r.next.acc.energyPrefix
  {
  }

  /**
   * A symbol boundary in tracking: the correlation is recomputed from scratch.
   * Above 0.5 the new offset is written and the frame count goes up, back to
   * 1 and to acquisition once it reaches num_ofdm_symbols; otherwise nothing
   * is written, a "Lost" tag goes on the sample, and the block returns to
   * acquisition with frame count 1.
   */
  lemma SymbolBoundary(cfg: Config, s: SyncState, input: seq<Complex>, i: nat)
    requires cfg.Ok() && i + cfg.Period() <= |input|
    requires !s.ctl.waitForNull && s.ctl.frameLengthCount + 1 >= cfg.Period()
    ensures var r := SampleStep(cfg, s, input, i);
      var acc := Step(s.acc, input, i, cfg.symbolLength, cfg.cyclicPrefixLength, true);
      r.next.acc == acc && acc.counter == 0 && r.next.ctl.frameLengthCount == 0
      && (Above(MagnitudeOf(acc), 0.5) ==>
            r.out == Some(FrequencyOffset(cfg.fm, acc.correlation)) && r.tag.None?
            && (s.ctl.frameCount + 1 >= cfg.numOfdmSymbols ==> r.next.ctl.waitForNull && r.next.ctl.frameCount == 1)
            && (s.ctl.frameCount + 1 < cfg.numOfdmSymbols ==>
                  !r.next.ctl.waitForNull && r.next.ctl.frameCount == s.ctl.frameCount + 1))
      && (!Above(MagnitudeOf(acc), 0.5) ==>
            r.out.None? && r.tag == Some(Tag(i, Lost)) && r.next.ctl.waitForNull && r.next.ctl.frameCount == 1)
  {
  }

  /** A tracked sample that does not end its symbol. */
  predicate InsideSymbolState(cfg: Config, s: SyncState)
  {
    !s.ctl.waitForNull && s.ctl.frameLengthCount + 1 < cfg.Period()
  }

  /** A tracked sample inside a symbol only counts: nothing is written or tagged. */
  lemma InsideSymbol(cfg: Config, s: SyncState, input: seq<Complex>, i: nat)
    requires cfg.Ok() && i + cfg.Period() <= |input| && InsideSymbolState(cfg, s)
    ensures SampleStep(cfg, s, input, i)
            == Outcome(s.(ctl := s.ctl.(frameLengthCount := s.ctl.frameLengthCount + 1)), None, None)
  {
  }

  /**
   * The trace keeps the frame bookkeeping: the state is well formed and, in
   * tracking, the values written since the frame began are exactly the frame
   * count, one for the start and one per valid boundary.
   */
  predicate Consistent(cfg: Config, t: Trace)
  {
    WellFormed(cfg, t.state) && (!t.state.ctl.waitForNull ==> |t.out| == t.frameStart + t.state.ctl.frameCount)
  }

  /** A call begins consistent from any well-formed state. */
  lemma InitialConsistent(cfg: Config, s0: SyncState)
    requires WellFormed(cfg, s0)
    ensures Consistent(cfg, Initial(s0))
  {
  }

  /**
   * One sample keeps the trace consistent; a frame that ends does so either
   * complete, with exactly num_ofdm_symbols values written since its start
   * (for num_ofdm_symbols >= 2), or lost, with a "Lost" tag and fewer values.
   */
  lemma NextConsistent(cfg: Config, t: Trace, input: seq<Complex>, i: nat)
    requires cfg.Ok() && i + cfg.Period() <= |input| && Consistent(cfg, t)
    ensures Consistent(cfg, Next(cfg, t, input, i))
    ensures var u := Next(cfg, t, input, i);
      !t.state.ctl.waitForNull && u.state.ctl.waitForNull && |u.out| > |t.out| && 2 <= cfg.numOfdmSymbols
      ==> |u.out| == t.frameStart + cfg.numOfdmSymbols && u.tags == t.tags
    ensures var u := Next(cfg, t, input, i);
      !t.state.ctl.waitForNull && u.state.ctl.waitForNull && |u.out| == |t.out| && 2 <= cfg.numOfdmSymbols
      ==> |u.out| < t.frameStart + cfg.numOfdmSymbols && u.tags == t.tags + [Tag(i, Lost)]
  {
    var s := t.state;
    if !s.ctl.waitForNull && s.ctl.frameLengthCount + 1 >= cfg.Period() {
      SymbolBoundary(cfg, s, input, i);
    } else if !s.ctl.waitForNull {
      InsideSymbol(cfg, s, input, i);
    } else {
      FrameStart(cfg, s, input, i);
    }
  }

  /** A loop body that keeps the trace consistent. */
  ghost predicate KeepsConsistent(cfg: Config, f: (Trace, nat) -> Trace)
  {
    forall v: Trace, m: nat {:trigger f(v, m)} :: Consistent(cfg, v) ==> Consistent(cfg, f(v, m))
  }

  /** The block's own loop body does. */
  lemma AdvanceKeepsConsistent(cfg: Config, input: seq<Complex>)
    ensures KeepsConsistent(cfg, Advance(cfg, input))
  {
    forall v: Trace, m: nat | Consistent(cfg, v)
      ensures Consistent(cfg, Advance(cfg, input)(v, m))
    {
      if cfg.Ok() && m + cfg.Period() <= |input| {
        NextConsistent(cfg, v, input, m);
      }
    }
  }

  lemma {:induction false} IterateConsistent(cfg: Config, f: (Trace, nat) -> Trace, t: Trace, n: nat)
    requires KeepsConsistent(cfg, f) && Consistent(cfg, t)
    ensures Consistent(cfg, Iterate(f, t, 0, n))
  {
    if n > 0 {
      IterateConsistent(cfg, f, t, n - 1);
    }
  }

  /**
   * Between samples of a call from a well-formed state, the frame count stays
   * in [1, num_ofdm_symbols) (or is 1), and a tracked frame has written as
   * many values as its frame count.
   */
  lemma RunConsistent(cfg: Config, s0: SyncState, input: seq<Complex>, n: nat)
    requires WellFormed(cfg, s0)
    ensures Consistent(cfg, Run(cfg, s0, input, n))
  {
    InitialConsistent(cfg, s0);
    AdvanceKeepsConsistent(cfg, input);
    IterateConsistent(cfg, Advance(cfg, input), Initial(s0), n);
  }

  /** A loop body that writes at most one value and adds at most one tag, on its own sample. */
  ghost predicate AppendsAtMostOne(f: (Trace, nat) -> Trace)
  {
    forall v: Trace, m: nat {:trigger f(v, m)} ::
      |v.out| <= |f(v, m).out| <= |v.out| + 1
      && (f(v, m).tags == v.tags || exists k :: f(v, m).tags == v.tags + [Tag(m, k)])
  }

  /** The block's own loop body does. */
  lemma AdvanceAppendsAtMostOne(cfg: Config, input: seq<Complex>)
    ensures AppendsAtMostOne(Advance(cfg, input))
  {
    forall v: Trace, m: nat
      ensures var u := Advance(cfg, input)(v, m);
        |v.out| <= |u.out| <= |v.out| + 1 && (u.tags == v.tags || exists k :: u.tags == v.tags + [Tag(m, k)])
    {
      if cfg.Ok() && m + cfg.Period() <= |input| {
        var o := SampleStep(cfg, v.state, input, m);
        if o.tag.Some? {
          assert Next(cfg, v, input, m).tags == v.tags + [Tag(m, o.tag.value.kind)];
        }
      }
    }
  }

  /**
   * After n iterations from a trace without output or tags at most n values
   * are written, and the tags sit on strictly ascending samples below n.
   */
  lemma {:induction false} IterateShape(f: (Trace, nat) -> Trace, t: Trace, n: nat)
    requires AppendsAtMostOne(f) && t.out == [] && t.tags == []
    ensures var u := Iterate(f, t, 0, n);
      |u.out| <= n
      && (forall a :: 0 <= a < |u.tags| ==> u.tags[a].offset < n)
      && (forall a, b :: 0 <= a < b < |u.tags| ==> u.tags[a].offset < u.tags[b].offset)
  {
    if n > 0 {
      IterateShape(f, t, n - 1);
    }
  }

  /**
   * After n samples of a call at most n values are written (at most one per
   * iteration), and the tags sit on strictly ascending samples below n.
   */
  lemma RunShape(cfg: Config, s0: SyncState, input: seq<Complex>, n: nat)
    ensures var t := Run(cfg, s0, input, n);
      |t.out| <= n
      && (forall a :: 0 <= a < |t.tags| ==> t.tags[a].offset < n)
      && (forall a, b :: 0 <= a < b < |t.tags| ==> t.tags[a].offset < t.tags[b].offset)
  {
    AdvanceAppendsAtMostOne(cfg, input);
    IterateShape(Advance(cfg, input), Initial(s0), n);
  }

  /**
   * The "Start" tag added at sample n sits at output offset n, while the
   * frequency offset it marks goes to index |out| <= n: the tag names that
   * value only when every earlier sample of the call wrote one.
   */
  lemma StartTagOffValue(cfg: Config, s0: SyncState, input: seq<Complex>, n: nat)
    requires cfg.Ok() && n + cfg.Period() <= |input|
    requires SampleStep(cfg, Run(cfg, s0, input, n).state, input, n).tag == Some(Tag(n, Start))
    ensures var t, u := Run(cfg, s0, input, n), Run(cfg, s0, input, n + 1);
      && u.tags == t.tags + [Tag(n, Start)]
      && |u.out| == |t.out| + 1 && u.out[|t.out|] == SampleStep(cfg, t.state, input, n).out.value
      && |t.out| <= n
  {
    RunStep(cfg, s0, input, n);
    RunShape(cfg, s0, input, n);
  }

  /** The tag placement the output calls for: a tag goes to the index the next written value takes, |out|. */
  function NextTagged(cfg: Config, t: Trace, input: seq<Complex>, i: nat): Trace
    requires cfg.Ok() && i + cfg.Period() <= |input|
  {
    var o := SampleStep(cfg, t.state, input, i);
    Trace(o.next,
          t.out + (if o.out.Some? then [o.out.value] else []),
          t.tags + (if o.tag.Some? then [Tag(|t.out|, o.tag.value.kind)] else []),
          if t.state.ctl.waitForNull && !o.next.ctl.waitForNull then |t.out| else t.frameStart)
  }

  function AdvanceTagged(cfg: Config, input: seq<Complex>): (Trace, nat) -> Trace
  {
    (t: Trace, i: nat) => if cfg.Ok() && i + cfg.Period() <= |input| then NextTagged(cfg, t, input, i) else t
  }

  /** A call with the corrected tag placement. */
  function RunTagged(cfg: Config, s0: SyncState, input: seq<Complex>, n: nat): Trace
  {
    Iterate(AdvanceTagged(cfg, input), Initial(s0), 0, n)
  }

  /** The corrected placement changes only the tags: state, values and frame start are the block's. */
  lemma {:induction false} RunTaggedValues(cfg: Config, s0: SyncState, input: seq<Complex>, n: nat)
    ensures RunTagged(cfg, s0, input, n).state == Run(cfg, s0, input, n).state
    ensures RunTagged(cfg, s0, input, n).out == Run(cfg, s0, input, n).out
    ensures RunTagged(cfg, s0, input, n).frameStart == Run(cfg, s0, input, n).frameStart
  {
    if n > 0 {
      RunTaggedValues(cfg, s0, input, n - 1);
    }
  }

  /** With the corrected placement the "Start" tag added at sample n sits on the frequency offset written there. */
  lemma CorrectedStartTagOnValue(cfg: Config, s0: SyncState, input: seq<Complex>, n: nat)
    requires cfg.Ok() && n + cfg.Period() <= |input|
    requires SampleStep(cfg, Run(cfg, s0, input, n).state, input, n).tag == Some(Tag(n, Start))
    ensures var t, u := RunTagged(cfg, s0, input, n), RunTagged(cfg, s0, input, n + 1);
      && u.tags == t.tags + [Tag(|t.out|, Start)]
      && |t.out| < |u.out| && u.out[|t.out|] == SampleStep(cfg, t.state, input, n).out.value
  {
    RunTaggedValues(cfg, s0, input, n);
  }

  /** A loop body that treats every tracked sample inside a symbol as the block does. */
  ghost predicate TracksInside(cfg: Config, input: seq<Complex>, f: (Trace, nat) -> Trace)
  {
    forall v: Trace, m: nat {:trigger f(v, m)} ::
      cfg.Ok() && m + cfg.Period() <= |input| && InsideSymbolState(cfg, v.state)
      ==> f(v, m) == v.(state := v.state.(ctl := v.state.ctl.(frameLengthCount := v.state.ctl.frameLengthCount + 1)))
  }

  /** The block's own loop body does. */
  lemma AdvanceTracksInside(cfg: Config, input: seq<Complex>)
    ensures TracksInside(cfg, input, Advance(cfg, input))
  {
    forall v: Trace, m: nat | cfg.Ok() && m + cfg.Period() <= |input| && InsideSymbolState(cfg, v.state)
      ensures Advance(cfg, input)(v, m)
              == v.(state := v.state.(ctl := v.state.ctl.(frameLengthCount := v.state.ctl.frameLengthCount + 1)))
    {
      InsideSymbol(cfg, v.state, input, m);
    }
  }

  /** j samples into a tracked symbol (j below the period) only the count has moved. */
  lemma {:induction false} TrackedSamples(cfg: Config, f: (Trace, nat) -> Trace, t: Trace, input: seq<Complex>,
                                          n: nat, j: nat)
    requires cfg.Ok() && TracksInside(cfg, input, f)
    requires !t.state.ctl.waitForNull && t.state.ctl.frameLengthCount == 0
    requires j < cfg.Period() && n + j + cfg.Period() <= |input| + 1
    ensures Iterate(f, t, n, j) == t.(state := t.state.(ctl := t.state.ctl.(frameLengthCount := j)))
  {
    if j > 0 {
      TrackedSamples(cfg, f, t, input, n, j - 1);
    }
  }

  /** TrackedSamples over one period less one sample, counted from the start of the trace. */
  lemma TrackedPeriod(cfg: Config, f: (Trace, nat) -> Trace, t0: Trace, input: seq<Complex>, n: nat)
    requires cfg.Ok() && TracksInside(cfg, input, f) && n + 2 * cfg.Period() <= |input| + 1
    requires var s := Iterate(f, t0, 0, n).state; !s.ctl.waitForNull && s.ctl.frameLengthCount == 0
    ensures var t := Iterate(f, t0, 0, n); var u := Iterate(f, t0, 0, n + cfg.Period() - 1);
      u.out == t.out && u.tags == t.tags && u.frameStart == t.frameStart
      && !u.state.ctl.waitForNull && u.state.ctl.frameLengthCount + 1 == cfg.Period()
  {
    IterateSplit(f, t0, 0, n, cfg.Period() - 1);
    TrackedSamples(cfg, f, Iterate(f, t0, 0, n), input, n, cfg.Period() - 1);
  }

  /**
   * A whole tracked symbol: over the period less one sample from count 0 the
   * block writes and tags nothing, and the next sample is the symbol
   * boundary, so a tracked frame writes one value per symbol.
   */
  lemma TrackedSymbol(cfg: Config, s0: SyncState, input: seq<Complex>, n: nat)
    requires cfg.Ok() && n + 2 * cfg.Period() <= |input| + 1
    requires var s := Run(cfg, s0, input, n).state; !s.ctl.waitForNull && s.ctl.frameLengthCount == 0
    ensures var t := Run(cfg, s0, input, n); var u := Run(cfg, s0, input, n + cfg.Period() - 1);
      u.out == t.out && u.tags == t.tags && u.frameStart == t.frameStart
      && !u.state.ctl.waitForNull && u.state.ctl.frameLengthCount + 1 == cfg.Period()
  {
    AdvanceTracksInside(cfg, input);
    TrackedPeriod(cfg, Advance(cfg, input), Initial(s0), input, n);
  }

  class SynchronizationFf {
    const cfg: Config
    var correlation: Complex
    var energyPrefix: real
    var energyRepetition: real
    var movingAverageCounter: int
    var magnitude: Magnitude
    var nullSymbolEnergy: real
    var frequencyOffset: real
    var nullDetected: bool
    var frameCount: int
    var frameLengthCount: int
    var waitForNull: bool
    var onTriangle: bool

    function Accs(): Accumulators
      reads this
    {
      Accumulators(correlation, energyPrefix, energyRepetition, movingAverageCounter)
    }

    function Ctl(): Control
      reads this
    {
      Control(waitForNull, onTriangle, nullDetected, nullSymbolEnergy, frequencyOffset, frameCount, frameLengthCount)
    }

    function State(): SyncState
      reads this
    {
      SyncState(Accs(), magnitude, Ctl())
    }

    /**
     * The constructor: acquisition, frame count 1, no NULL symbol seen, unit
     * energies. The normalised magnitude is not initialised by the block; it
     * is a parameter here (it is always recomputed before it is read).
     */
    constructor (symbolLength: nat, cyclicPrefixLength: nat, numOfdmSymbols: int, fm: FloatMath, magnitude0: Magnitude)
      requires 0 < cyclicPrefixLength
      ensures cfg == Config(symbolLength, cyclicPrefixLength, numOfdmSymbols, fm)
      ensures State() == SyncState(Accumulators(Zero, 1.0, 1.0, 0), magnitude0,
                                   Control(true, false, false, 1.0, 0.0, 1, 0))
      ensures WellFormed(cfg, State())
    {
      cfg := Config(symbolLength, cyclicPrefixLength, numOfdmSymbols, fm);
      correlation, energyPrefix, energyRepetition, movingAverageCounter := Zero, 1.0, 1.0, 0;
      magnitude := magnitude0;
      nullSymbolEnergy, frequencyOffset, nullDetected := 1.0, 0.0, false;
      frameCount, frameLengthCount, waitForNull, onTriangle := 1, 0, true, false;
    }

    /** min_noutput_items: a call asks for at least one more item than a symbol with its prefix. */
    function MinOutputItems(): (r: nat)
      reads this
      ensures r > cfg.Period()
    {
      cfg.symbolLength + cfg.cyclicPrefixLength + 1
    }

    /** forecast: the samples a call may read for noutput_items outputs. */
    function Forecast(noutput: nat): (r: nat)
      ensures r >= noutput
    {
      noutput
    }

    /** delayed_correlation at sample pos: the moving sums take one Step, the magnitude follows them. */
    method DelayedCorrelationAt(input: seq<Complex>, pos: nat, newCalculation: bool)
      requires cfg.Ok() && pos + cfg.Period() <= |input|
      modifies this
      ensures Accs() == Step(old(Accs()), input, pos, cfg.symbolLength, cfg.cyclicPrefixLength, newCalculation)
      ensures magnitude == MagnitudeOf(Accs())
      ensures Ctl() == old(Ctl())
    {
      ghost var expected := Step(Accs(), input, pos, cfg.symbolLength, cfg.cyclicPrefixLength, newCalculation);
      var L, cp := cfg.symbolLength, cfg.cyclicPrefixLength;
      if movingAverageCounter > 100000 || movingAverageCounter == 0 || newCalculation {
        if movingAverageCounter == 0 && !newCalculation {
          movingAverageCounter := movingAverageCounter + 1;
        } else {
          movingAverageCounter := 0;
        }
        correlation, energyPrefix, energyRepetition := FullCorrelation(input, pos, L, cp);
      } else {
        correlation := Add(correlation, Mul(input[pos + cp - 1], Conj(input[pos + L + cp - 1])));
        energyPrefix := energyPrefix + Norm(input[pos + cp - 1]);
        energyRepetition := energyRepetition + Norm(input[pos + L + cp - 1]);
        correlation := Sub(correlation, Mul(input[pos], Conj(input[pos + L])));
        energyPrefix := energyPrefix - Norm(input[pos]);
        energyRepetition := energyRepetition - Norm(input[pos + L]);
        movingAverageCounter := movingAverageCounter + 1;
      }
      assert Accs() == expected;
      magnitude := MagnitudeOf(Accs());
    }

    /** detect_start_of_symbol on the current magnitude. */
    method DetectStartOfSymbol() returns (start: bool)
      modifies this
      ensures Detection(start, onTriangle) == Detect(old(onTriangle), magnitude)
      ensures Accs() == old(Accs()) && magnitude == old(magnitude)
      ensures Ctl() == old(Ctl()).(onTriangle := onTriangle)
    {
      if onTriangle {
        if magnitude.Finite? && magnitude.value < 0.5 {
          onTriangle := false;
        }
        return false;
      } else {
        if magnitude.Finite? && magnitude.value > 0.85 {
          onTriangle := true;
          return true;
        }
        return false;
      }
    }

    /** The block's state, the values in out and the tags added are those of trace t. */
    ghost predicate Written(t: Trace, out: array<real>, nwritten: nat, tags: seq<Tag>)
      reads this, out
    {
      State() == t.state && nwritten == |t.out| <= out.Length && out[..nwritten] == t.out && tags == t.tags
    }

    /**
     * general_work: the loop runs noutput_items - cp - symbol_length times, so
     * every sample it reads lies below noutput_items; the block writes the
     * values Run writes to out from index 0 on, at most one per iteration,
     * adds Run's tags, and consumes exactly the iterations.
     */
    method GeneralWork(input: seq<Complex>, noutput: nat, out: array<real>)
      returns (produced: nat, consumed: nat, tags: seq<Tag>)
      requires cfg.Ok() && noutput >= MinOutputItems() && |input| >= Forecast(noutput) && out.Length >= noutput
      modifies this, out
      ensures consumed == noutput - cfg.Period() && 1 <= consumed
      ensures Written(Run(cfg, old(State()), input, consumed), out, produced, tags)
      ensures produced <= consumed && out[produced..] == old(out[produced..])
    {
      ghost var s0 := State();
      var iterations := noutput - cfg.cyclicPrefixLength - cfg.symbolLength;
      produced := 0;
      tags := [];
      for i := 0 to iterations
        invariant Written(Run(cfg, s0, input, i), out, produced, tags)
        invariant out[produced..] == old(out[produced..])
      {
        produced, tags := ProcessSample(input, i, out, produced, tags, s0);
      }
      RunShape(cfg, s0, input, iterations);
      consumed := iterations;
    }

    /** One iteration of the loop of general_work. */
    method ProcessSample(input: seq<Complex>, i: nat, out: array<real>, nwritten: nat, tags: seq<Tag>,
                         ghost s0: SyncState)
      returns (nwritten': nat, tags': seq<Tag>)
      requires cfg.Ok() && i + cfg.Period() < |input| && i < out.Length
      requires Written(Run(cfg, s0, input, i), out, nwritten, tags)
      modifies this, out
      ensures Written(Run(cfg, s0, input, i + 1), out, nwritten', tags')
      ensures out[nwritten'..] == old(out[nwritten'..])
    {
      RunStep(cfg, s0, input, i);
      RunShape(cfg, s0, input, i);
      var value, tag := SampleUpdate(input, i);
      nwritten', tags' := nwritten, tags;
      if tag.Some? {
        tags' := tags' + [tag.value];
      }
      if value.Some? {
        out[nwritten'] := value.value;
        nwritten' := nwritten' + 1;
        assert out[..nwritten'] == out[..nwritten] + [value.value];
      }
    }

    /**
     * The state changes of one iteration of the loop of general_work, for the
     * sample at i; the value to write and the tag to add, if any, are
     * returned to the loop.
     */
    method SampleUpdate(input: seq<Complex>, i: nat) returns (value: Option<real>, tag: Option<Tag>)
      requires cfg.Ok() && i + cfg.Period() <= |input|
      modifies this
      ensures var o := SampleStep(cfg, old(State()), input, i);
        State() == o.next && value == o.out && tag == o.tag
    {
      ghost var o := SampleStep(cfg, State(), input, i);
      value, tag := None, None;
      if waitForNull {
        DelayedCorrelationAt(input, i, false);
        var detected := DetectStartOfSymbol();
        if detected {
          if nullDetected && energyPrefix > nullSymbolEnergy * 2.0 {
            frequencyOffset := FrequencyOffset(cfg.fm, correlation);
            tag := Some(Tag(i, Start));
            value := Some(frequencyOffset);
            nullDetected := false;
            waitForNull := false;
          }
        } else if !nullDetected && NullRatio(energyPrefix, energyRepetition) {
          nullSymbolEnergy := energyPrefix;
          nullDetected := true;
        }
      } else {
        frameLengthCount := frameLengthCount + 1;
        if frameLengthCount >= cfg.symbolLength + cfg.cyclicPrefixLength {
          frameLengthCount := 0;
          DelayedCorrelationAt(input, i, true);
          if magnitude.Finite? && magnitude.value > 0.5 {
            frequencyOffset := FrequencyOffset(cfg.fm, correlation);
            value := Some(frequencyOffset);
            frameCount := frameCount + 1;
            if frameCount >= cfg.numOfdmSymbols {
              frameCount := 1;
              waitForNull := true;
            }
          } else {
            waitForNull := true;
            tag := Some(Tag(i, Lost));
            frameCount := 1;
          }
        }
      }
      assert State() == o.next;
    }
  }
}
