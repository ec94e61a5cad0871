/**
 * The OFDM time synchroniser: in acquisition it runs the delayed correlation
 * sample by sample, waits for a NULL symbol (prefix energy below a tenth of
 * the energy one symbol later) and then for a correlation peak with enough
 * energy, which starts a frame; in tracking it counts the samples of each
 * symbol, emits the samples after the cyclic prefix, frequency-corrected,
 * and re-checks the correlation at every symbol boundary.
 *
 * The frequency offset std::arg(correlation) / 0.001246 and the derotation by
 * gr_expj are left to the uninterpreted FloatMath functions.
 */
module OfdmSynchronization {
  import opened Signal
  import opened DelayedCorrelation

  /**
   * d_wait_for_NULL (acquisition), d_on_triangle, d_NULL_detected,
   * d_NULL_symbol_energy, d_frequency_offset, d_symbol_count and
   * d_symbol_element_count.
   */
  datatype Control = Control(waitForNull: bool, onTriangle: bool, nullDetected: bool, nullSymbolEnergy: real,
                             frequencyOffset: real, symbolCount: int, elementCount: int)

  /** The whole state of the block: moving sums, the last magnitude and the controller. */
  datatype SyncState = SyncState(acc: Accumulators, magnitude: Magnitude, ctl: Control)

  /** What one input sample does: the next state, the output sample if any, and whether a "Start" tag is added. */
  datatype Outcome = Outcome(next: SyncState, out: Option<Complex>, startTag: bool)

  /** The block's parameters. */
  datatype Config = Config(symbolLength: nat, cyclicPrefixLength: nat, symbolsPerFrame: int, fm: FloatMath)
  {
    predicate Ok() { 0 < cyclicPrefixLength }
    /** Samples per symbol including the cyclic prefix. */
    function Period(): nat { symbolLength + cyclicPrefixLength }
  }

  /**
   * The state between samples: the moving-sum counter in [0, 100001], and in
   * tracking an element count inside the symbol and a symbol count inside
   * the frame.
   */
  predicate WellFormed(cfg: Config, s: SyncState)
  {
    0 <= s.acc.counter <= 100001
    && (!s.ctl.waitForNull ==>
          0 <= s.ctl.elementCount < cfg.Period()
          && 0 <= s.ctl.symbolCount && (s.ctl.symbolCount == 0 || s.ctl.symbolCount < cfg.symbolsPerFrame))
  }

  /** One iteration of the loop of general_work, for the sample at i. */
  function SampleStep(cfg: Config, s: SyncState, input: seq<Complex>, i: nat): (r: Outcome)
    requires cfg.Ok() && i + cfg.Period() <= |input|
    ensures WellFormed(cfg, s) ==> WellFormed(cfg, r.next)
    ensures r.out.Some? ==> !s.ctl.waitForNull && !r.next.ctl.waitForNull
    ensures r.startTag ==> s.ctl.waitForNull && !r.next.ctl.waitForNull
  {
    var L, cp := cfg.symbolLength, cfg.cyclicPrefixLength;
    if s.ctl.waitForNull then
      var acc := Step(s.acc, input, i, L, cp, false);
      var m := MagnitudeOf(acc);
      var d := Detect(s.ctl.onTriangle, m);
      if d.start then
        if s.ctl.nullDetected && acc.energyPrefix > s.ctl.nullSymbolEnergy * 2.0 then
          Outcome(SyncState(acc, m, s.ctl.(onTriangle := d.onTriangle, frequencyOffset := FrequencyOffset(cfg.fm, acc.correlation),
                                          elementCount := 0, symbolCount := 0, nullDetected := false,
                                          waitForNull := false)),
                  None, true)
        else
          Outcome(SyncState(acc, m, s.ctl.(onTriangle := d.onTriangle)), None, false)
      else if !s.ctl.nullDetected && NullRatio(acc.energyPrefix, acc.energyRepetition) then
        Outcome(SyncState(acc, m, s.ctl.(onTriangle := d.onTriangle, nullSymbolEnergy := acc.energyPrefix,
                                        nullDetected := true)),
                None, false)
      else
        Outcome(SyncState(acc, m, s.ctl.(onTriangle := d.onTriangle)), None, false)
    else
      var count := s.ctl.elementCount + 1;
      if count >= L + cp then
        var symbols := s.ctl.symbolCount + 1;
        if symbols >= cfg.symbolsPerFrame then
          Outcome(SyncState(s.acc, s.magnitude, s.ctl.(elementCount := 0, symbolCount := 0, waitForNull := true)),
                  None, false)
        else
          var acc := Step(s.acc, input, i, L, cp, true);
          var m := MagnitudeOf(acc);
          if Above(m, 0.5) then
            Outcome(SyncState(acc, m, s.ctl.(elementCount := 0, symbolCount := symbols,
                                            frequencyOffset := FrequencyOffset(cfg.fm, acc.correlation))),
                    None, false)
          else
            Outcome(SyncState(acc, m, s.ctl.(elementCount := 0, symbolCount := symbols, waitForNull := true)),
                    None, false)
      else if cp <= count then
        Outcome(SyncState(s.acc, s.magnitude, s.ctl.(elementCount := count)),
                Some(Mul(input[i], cfg.fm.expj(-s.ctl.frequencyOffset))), false)
      else
        Outcome(SyncState(s.acc, s.magnitude, s.ctl.(elementCount := count)), None, false)
  }

  /** The state, the samples written and the tags added after the first n samples of a call. */
  datatype Trace = Trace(state: SyncState, out: seq<Complex>, tags: seq<nat>)

  /** The trace after one more sample, the one at i. */
  function Next(cfg: Config, t: Trace, input: seq<Complex>, i: nat): Trace
    requires cfg.Ok() && i + cfg.Period() <= |input|
  {
    var o := SampleStep(cfg, t.state, input, i);
    Trace(o.next, t.out + (if o.out.Some? then [o.out.value] else []), t.tags + (if o.startTag then [i + 1] else []))
  }

  /** The block's loop body as a value: the sample at i advances the trace (samples beyond the forecast do not occur). */
  function Advance(cfg: Config, input: seq<Complex>): (Trace, nat) -> Trace
  {
    (t: Trace, i: nat) => if cfg.Ok() && i + cfg.Period() <= |input| then Next(cfg, t, input, i) else t
  }

  /** The trace of a call after its first n samples, from state s0. */
  function Run(cfg: Config, s0: SyncState, input: seq<Complex>, n: nat): Trace
  {
    Iterate(Advance(cfg, input), Trace(s0, [], []), 0, n)
  }

  /** One more sample of a call is one more Next. */
  lemma RunStep(cfg: Config, s0: SyncState, input: seq<Complex>, n: nat)
    requires cfg.Ok() && n + cfg.Period() <= |input|
    ensures Run(cfg, s0, input, n + 1) == Next(cfg, Run(cfg, s0, input, n), input, n)
  {
  }

  /** A loop body that writes at most one sample, and adds at most one tag, at output offset m + 1 for its sample m. */
  ghost predicate AppendsAtMostOne(f: (Trace, nat) -> Trace)
  {
    forall v: Trace, m: nat {:trigger f(v, m)} ::
      |f(v, m).out| <= |v.out| + 1 && (f(v, m).tags == v.tags || f(v, m).tags == v.tags + [m + 1])
  }

  /** The block's own loop body does. */
  lemma AdvanceAppendsAtMostOne(cfg: Config, input: seq<Complex>)
    ensures AppendsAtMostOne(Advance(cfg, input))
  {
  }

  /**
   * After n iterations from an empty trace at most n samples are written, and
   * the tags are strictly ascending positions in (0, n].
   */
  lemma {:induction false} IterateShape(f: (Trace, nat) -> Trace, s0: SyncState, n: nat)
    requires AppendsAtMostOne(f)
    ensures var t := Iterate(f, Trace(s0, [], []), 0, n);
      |t.out| <= n
      && (forall a :: 0 <= a < |t.tags| ==> 0 < t.tags[a] <= n)
      && (forall a, b :: 0 <= a < b < |t.tags| ==> t.tags[a] < t.tags[b])
  {
    if n > 0 {
      IterateShape(f, s0, n - 1);
    }
  }

  /**
   * After n samples of a call at most n samples are written, and the tags are
   * strictly ascending positions in (0, n]. A tag position is an output
   * offset counted in input samples: the peak's input index plus one.
   */
  lemma RunShape(cfg: Config, s0: SyncState, input: seq<Complex>, n: nat)
    ensures var t := Run(cfg, s0, input, n);
      |t.out| <= n
      && (forall a :: 0 <= a < |t.tags| ==> 0 < t.tags[a] <= n)
      && (forall a, b :: 0 <= a < b < |t.tags| ==> t.tags[a] < t.tags[b])
  {
    AdvanceAppendsAtMostOne(cfg, input);
    IterateShape(Advance(cfg, input), s0, n);
  }

  /**
   * The "Start" tag added at sample n lies past every sample written so far:
   * the frame's first sample, written later, goes to index |out| of the
   * output, and the tag sits at n + 1 > |out|.
   */
  lemma StartTagPastOutput(cfg: Config, s0: SyncState, input: seq<Complex>, n: nat)
    requires cfg.Ok() && n + cfg.Period() <= |input|
    requires SampleStep(cfg, Run(cfg, s0, input, n).state, input, n).startTag
    ensures var t, u := Run(cfg, s0, input, n), Run(cfg, s0, input, n + 1);
      && u.tags == t.tags + [n + 1]
      && u.out == t.out
      && |u.out| <= n < n + 1
  {
    RunStep(cfg, s0, input, n);
    RunShape(cfg, s0, input, n);
  }

  /** The samples written by a call only grow: those after k samples begin those after m >= k. */
  lemma {:induction false} RunOutGrows(cfg: Config, s0: SyncState, input: seq<Complex>, k: nat, m: nat)
    requires k <= m
    ensures Run(cfg, s0, input, k).out <= Run(cfg, s0, input, m).out
    decreases m - k
  {
    if k < m {
      RunOutGrows(cfg, s0, input, k, m - 1);
    }
  }

  /**
   * The tag placement a frame start calls for: the "Start" tag goes to the
   * output index the next written sample takes, |out|.
   */
  function NextTagged(cfg: Config, t: Trace, input: seq<Complex>, i: nat): Trace
    requires cfg.Ok() && i + cfg.Period() <= |input|
  {
    var o := SampleStep(cfg, t.state, input, i);
    Trace(o.next, t.out + (if o.out.Some? then [o.out.value] else []), t.tags + (if o.startTag then [|t.out|] else []))
  }

  function AdvanceTagged(cfg: Config, input: seq<Complex>): (Trace, nat) -> Trace
  {
    (t: Trace, i: nat) => if cfg.Ok() && i + cfg.Period() <= |input| then NextTagged(cfg, t, input, i) else t
  }

  /** A call with the corrected tag placement. */
  function RunTagged(cfg: Config, s0: SyncState, input: seq<Complex>, n: nat): Trace
  {
    Iterate(AdvanceTagged(cfg, input), Trace(s0, [], []), 0, n)
  }

  /** The corrected placement changes only the tags: state and samples are the block's. */
  lemma {:induction false} RunTaggedSamples(cfg: Config, s0: SyncState, input: seq<Complex>, n: nat)
    ensures RunTagged(cfg, s0, input, n).state == Run(cfg, s0, input, n).state
    ensures RunTagged(cfg, s0, input, n).out == Run(cfg, s0, input, n).out
  {
    if n > 0 {
      RunTaggedSamples(cfg, s0, input, n - 1);
    }
  }

  /**
   * With the corrected placement the "Start" tag added at sample k is the
   * index of the first sample written after it: every sample at a lower
   * index of a later output was written before the tag.
   */
  lemma CorrectedTagOnFrameStart(cfg: Config, s0: SyncState, input: seq<Complex>, k: nat, m: nat)
    requires cfg.Ok() && k + cfg.Period() <= |input| && k < m
    requires SampleStep(cfg, Run(cfg, s0, input, k).state, input, k).startTag
    ensures var tag := |Run(cfg, s0, input, k).out|;
      && RunTagged(cfg, s0, input, k + 1).tags == RunTagged(cfg, s0, input, k).tags + [tag]
      && Run(cfg, s0, input, k + 1).out == Run(cfg, s0, input, k).out
      && Run(cfg, s0, input, k).out <= Run(cfg, s0, input, m).out
  {
    RunTaggedSamples(cfg, s0, input, k);
    RunStep(cfg, s0, input, k);
    RunOutGrows(cfg, s0, input, k + 1, m);
  }

  /**
   * Acquisition ends exactly on a detected start while a NULL symbol has been
   * seen and the prefix energy exceeds twice the NULL symbol's energy; the
   * switch resets both counts and the NULL flag and adds one "Start" tag.
   */
  lemma AcquisitionEnds(cfg: Config, s: SyncState, input: seq<Complex>, i: nat)
    requires cfg.Ok() && i + cfg.Period() <= |input| && s.ctl.waitForNull
    ensures var r := SampleStep(cfg, s, input, i);
      var acc := Step(s.acc, input, i, cfg.symbolLength, cfg.cyclicPrefixLength, false);
      (!r.next.ctl.waitForNull <==>
         (Detect(s.ctl.onTriangle, MagnitudeOf(acc)).start
          && s.ctl.nullDetected && acc.energyPrefix > s.ctl.nullSymbolEnergy * 2.0))
      && (!r.next.ctl.waitForNull <==> r.startTag)
      && (!r.next.ctl.waitForNull ==>
            r.next.ctl.symbolCount == 0 && r.next.ctl.elementCount == 0 && !r.next.ctl.nullDetected)
      && r.out.None?
  {
  }

  /**
   * The NULL flag is raised only in acquisition, on a sample without a
   * detected start, when the prefix energy is below a tenth of the repetition
   * energy; the prefix energy is then kept as the NULL symbol's energy.
   */
  lemma NullDetection(cfg: Config, s: SyncState, input: seq<Complex>, i: nat)
    requires cfg.Ok() && i + cfg.Period() <= |input| && !s.ctl.nullDetected
    ensures var r := SampleStep(cfg, s, input, i);
      var acc := Step(s.acc, input, i, cfg.symbolLength, cfg.cyclicPrefixLength, false);
      r.next.ctl.nullDetected <==>
        (s.ctl.waitForNull && !Detect(s.ctl.onTriangle, MagnitudeOf(acc)).start
         && NullRatio(acc.energyPrefix, acc.energyRepetition))
    ensures var r := SampleStep(cfg, s, input, i);
      r.next.ctl.nullDetected ==> r.next.ctl.nullSymbolEnergy == r.next.acc.energyPrefix
  {
  }

  /**
   * A symbol boundary in tracking: the symbol count goes up; a full frame
   * returns to acquisition with count 0; otherwise the correlation is
   * recomputed from scratch and a magnitude not above 0.5 returns to
   * acquisition.
   */
  lemma SymbolBoundary(cfg: Config, s: SyncState, input: seq<Complex>, i: nat)
    requires cfg.Ok() && i + cfg.Period() <= |input|
    requires !s.ctl.waitForNull && s.ctl.elementCount + 1 >= cfg.Period()
    ensures var r := SampleStep(cfg, s, input, i);
      var acc := Step(s.acc, input, i, cfg.symbolLength, cfg.cyclicPrefixLength, true);
      r.out.None? && r.next.ctl.elementCount == 0
      && (s.ctl.symbolCount + 1 >= cfg.symbolsPerFrame ==> r.next.ctl.waitForNull && r.next.ctl.symbolCount == 0)
      && (s.ctl.symbolCount + 1 < cfg.symbolsPerFrame ==>
            r.next.acc == acc && acc.counter == 0
            && r.next.ctl.symbolCount == s.ctl.symbolCount + 1
            && (r.next.ctl.waitForNull <==> !Above(MagnitudeOf(acc), 0.5)))
  {
  }

  /** The frequency-corrected samples lo .. hi - 1. */
  function Derotated(fm: FloatMath, input: seq<Complex>, lo: nat, hi: nat, offset: real): (r: seq<Complex>)
    requires lo <= hi <= |input|
    ensures |r| == hi - lo
    ensures forall k :: 0 <= k < hi - lo ==> r[k] == Mul(input[lo + k], fm.expj(-offset))
  {
    seq(hi - lo, k requires 0 <= k < hi - lo => Mul(input[lo + k], fm.expj(-offset)))
  }

  /** A tracked sample that does not end its symbol. */
  predicate InsideSymbolState(cfg: Config, s: SyncState)
  {
    !s.ctl.waitForNull && s.ctl.elementCount + 1 < cfg.Period()
  }

  /** A tracked sample inside a symbol only counts, and emits itself once past the cyclic prefix. */
  lemma InsideSymbol(cfg: Config, s: SyncState, input: seq<Complex>, i: nat)
    requires cfg.Ok() && i + cfg.Period() <= |input| && InsideSymbolState(cfg, s)
    ensures var count := s.ctl.elementCount + 1;
      SampleStep(cfg, s, input, i)
      == Outcome(s.(ctl := s.ctl.(elementCount := count)),
                 if cfg.cyclicPrefixLength <= count then Some(Mul(input[i], cfg.fm.expj(-s.ctl.frequencyOffset)))
                 else None,
                 false)
  {
  }

  /** The trace after the tracked sample at m inside a symbol, as InsideSymbol describes it. */
  function InsideTrace(cfg: Config, v: Trace, input: seq<Complex>, m: nat): Trace
    requires m < |input|
  {
    var count := v.state.ctl.elementCount + 1;
    Trace(v.state.(ctl := v.state.ctl.(elementCount := count)),
          v.out + (if cfg.cyclicPrefixLength <= count then [Mul(input[m], cfg.fm.expj(-v.state.ctl.frequencyOffset))]
                   else []),
          v.tags)
  }

  /** A loop body that treats every tracked sample inside a symbol as the block does. */
  ghost predicate TracksInside(cfg: Config, input: seq<Complex>, f: (Trace, nat) -> Trace)
  {
    forall v: Trace, m: nat {:trigger f(v, m)} ::
      cfg.Ok() && m + cfg.Period() <= |input| && InsideSymbolState(cfg, v.state) ==> f(v, m) == InsideTrace(cfg, v, input, m)
  }

  /** The block's own loop body does. */
  lemma AdvanceTracksInside(cfg: Config, input: seq<Complex>)
    ensures TracksInside(cfg, input, Advance(cfg, input))
  {
    forall v: Trace, m: nat | cfg.Ok() && m + cfg.Period() <= |input| && InsideSymbolState(cfg, v.state)
      ensures Advance(cfg, input)(v, m) == InsideTrace(cfg, v, input, m)
    {
      InsideSymbol(cfg, v.state, input, m);
    }
  }

  /**
   * Inside a tracked symbol: j samples after the state with element count 0
   * (j below the period), the element count is j, nothing else has changed,
   * and the samples with counts cp .. j have been emitted, frequency-corrected.
   */
  lemma {:induction false} TrackedSamples(cfg: Config, f: (Trace, nat) -> Trace, t: Trace, input: seq<Complex>,
                                          n: nat, j: nat)
    requires cfg.Ok() && TracksInside(cfg, input, f)
    requires !t.state.ctl.waitForNull && t.state.ctl.elementCount == 0
    requires j < cfg.Period() && n + j + cfg.Period() <= |input| + 1
    ensures var u := Iterate(f, t, n, j);
      u.state == t.state.(ctl := t.state.ctl.(elementCount := j))
      && u.tags == t.tags
      && u.out == t.out + EmittedSamples(cfg, input, n, j, t.state.ctl.frequencyOffset)
  {
    if j > 0 {
      TrackedSamples(cfg, f, t, input, n, j - 1);
      var offset := t.state.ctl.frequencyOffset;
      var v := Iterate(f, t, n, j - 1);
      assert Iterate(f, t, n, j) == InsideTrace(cfg, v, input, n + j - 1);
      EmittedSamplesStep(cfg, input, n, j, offset);
    }
  }

  /** The samples a tracked symbol from input index n has emitted after j samples: those past the cyclic prefix. */
  function EmittedSamples(cfg: Config, input: seq<Complex>, n: nat, j: nat, offset: real): seq<Complex>
    requires cfg.Ok() && n + j <= |input|
  {
    if j < cfg.cyclicPrefixLength then [] else Derotated(cfg.fm, input, n + cfg.cyclicPrefixLength - 1, n + j, offset)
  }

  /** Sample j - 1 of the symbol adds itself to what was emitted once its count j reaches the cyclic prefix. */
  lemma EmittedSamplesStep(cfg: Config, input: seq<Complex>, n: nat, j: nat, offset: real)
    requires cfg.Ok() && 0 < j && n + j <= |input|
    ensures EmittedSamples(cfg, input, n, j, offset)
         == EmittedSamples(cfg, input, n, j - 1, offset)
            + (if cfg.cyclicPrefixLength <= j then [Mul(input[n + j - 1], cfg.fm.expj(-offset))] else [])
  {
    var cp := cfg.cyclicPrefixLength;
    if j == cp {
      assert Derotated(cfg.fm, input, n + cp - 1, n + j, offset) == [Mul(input[n + j - 1], cfg.fm.expj(-offset))];
    } else if j > cp {
      DerotatedSnoc(cfg.fm, input, n + cp - 1, n + j - 1, offset);
    }
  }

  /** One more frequency-corrected sample at the end. */
  lemma DerotatedSnoc(fm: FloatMath, input: seq<Complex>, lo: nat, hi: nat, offset: real)
    requires lo <= hi < |input|
    ensures Derotated(fm, input, lo, hi + 1, offset)
         == Derotated(fm, input, lo, hi, offset) + [Mul(input[hi], fm.expj(-offset))]
  {
    assert Derotated(fm, input, lo, hi + 1, offset)
        == Derotated(fm, input, lo, hi, offset) + [Mul(input[hi], fm.expj(-offset))];
  }

  /** TrackedSamples over one period less one sample, counted from the start of the trace. */
  lemma TrackedPeriod(cfg: Config, f: (Trace, nat) -> Trace, t0: Trace, input: seq<Complex>, n: nat)
    requires cfg.Ok() && TracksInside(cfg, input, f) && n + 2 * cfg.Period() <= |input| + 1
    requires var s := Iterate(f, t0, 0, n).state; !s.ctl.waitForNull && s.ctl.elementCount == 0
    ensures var t := Iterate(f, t0, 0, n); var u := Iterate(f, t0, 0, n + cfg.Period() - 1);
      u.out == t.out + Derotated(cfg.fm, input, n + cfg.cyclicPrefixLength - 1,
                                 n + cfg.Period() - 1, t.state.ctl.frequencyOffset)
      && |u.out| == |t.out| + cfg.symbolLength
      && !u.state.ctl.waitForNull && u.state.ctl.elementCount + 1 == cfg.Period()
  {
    IterateSplit(f, t0, 0, n, cfg.Period() - 1);
    TrackedSamples(cfg, f, Iterate(f, t0, 0, n), input, n, cfg.Period() - 1);
  }

  /**
   * A whole tracked symbol: over one period from element count 0 the block
   * emits exactly symbol_length samples, the ones after the cyclic prefix,
   * and the last sample of the period is the next symbol boundary.
   */
  lemma TrackedSymbol(cfg: Config, s0: SyncState, input: seq<Complex>, n: nat)
    requires cfg.Ok() && n + 2 * cfg.Period() <= |input| + 1
    requires var s := Run(cfg, s0, input, n).state; !s.ctl.waitForNull && s.ctl.elementCount == 0
    ensures var t := Run(cfg, s0, input, n); var u := Run(cfg, s0, input, n + cfg.Period() - 1);
      u.out == t.out + Derotated(cfg.fm, input, n + cfg.cyclicPrefixLength - 1,
                                 n + cfg.Period() - 1, t.state.ctl.frequencyOffset)
      && |u.out| == |t.out| + cfg.symbolLength
      && !u.state.ctl.waitForNull && u.state.ctl.elementCount + 1 == cfg.Period()
  {
    AdvanceTracksInside(cfg, input);
    TrackedPeriod(cfg, Advance(cfg, input), Trace(s0, [], []), input, n);
  }

  class OfdmSynchronization {
    const cfg: Config
    var correlation: Complex
    var energyPrefix: real
    var energyRepetition: real
    var movingAverageCounter: int
    var magnitude: Magnitude
    var nullSymbolEnergy: real
    var frequencyOffset: real
    var nullDetected: bool
    var symbolCount: int
    var symbolElementCount: int
    var waitForNull: bool
    var onTriangle: bool

    function Accs(): Accumulators
      reads this
    {
      Accumulators(correlation, energyPrefix, energyRepetition, movingAverageCounter)
    }

    function Ctl(): Control
      reads this
    {
      Control(waitForNull, onTriangle, nullDetected, nullSymbolEnergy, frequencyOffset, symbolCount, symbolElementCount)
    }

    function State(): SyncState
      reads this
    {
      SyncState(Accs(), magnitude, Ctl())
    }

    /**
     * The constructor: acquisition, no NULL symbol seen, unit energies. The
     * normalised magnitude is not initialised by the block; it is a parameter
     * here (it is always recomputed before it is read).
     */
    constructor (symbolLength: nat, cyclicPrefixLength: nat, symbolsPerFrame: int, fm: FloatMath, magnitude0: Magnitude)
      requires 0 < cyclicPrefixLength
      ensures cfg == Config(symbolLength, cyclicPrefixLength, symbolsPerFrame, fm)
      ensures State() == SyncState(Accumulators(Zero, 1.0, 1.0, 0), magnitude0,
                                   Control(true, false, false, 1.0, 0.0, 0, 0))
      ensures WellFormed(cfg, State())
    {
      cfg := Config(symbolLength, cyclicPrefixLength, symbolsPerFrame, fm);
      correlation, energyPrefix, energyRepetition, movingAverageCounter := Zero, 1.0, 1.0, 0;
      magnitude := magnitude0;
      nullSymbolEnergy, frequencyOffset, nullDetected := 1.0, 0.0, false;
      symbolCount, symbolElementCount, waitForNull, onTriangle := 0, 0, true, false;
    }

    /** forecast: the samples a call may read for noutput_items outputs. */
    function Forecast(noutput: nat): (r: nat)
      reads this
      ensures r > noutput + cfg.Period()
    {
      noutput + cfg.symbolLength + cfg.cyclicPrefixLength + 1
    }

    /** delayed_correlation at sample pos: the moving sums take one Step, the magnitude follows them. */
    method DelayedCorrelationAt(input: seq<Complex>, pos: nat, newCalculation: bool)
      requires cfg.Ok() && pos + cfg.Period() <= |input|
      modifies this
      ensures Accs() == Step(old(Accs()), input, pos, cfg.symbolLength, cfg.cyclicPrefixLength, newCalculation)
      ensures magnitude == MagnitudeOf(Accs())
      ensures Ctl() == old(Ctl())
    {
      ghost var expected := Step(Accs(), input, pos, cfg.symbolLength, cfg.cyclicPrefixLength, newCalculation);
      var L, cp := cfg.symbolLength, cfg.cyclicPrefixLength;
      if movingAverageCounter > 100000 || movingAverageCounter == 0 || newCalculation {
        if movingAverageCounter == 0 && !newCalculation {
          movingAverageCounter := movingAverageCounter + 1;
        } else {
          movingAverageCounter := 0;
        }
        correlation, energyPrefix, energyRepetition := FullCorrelation(input, pos, L, cp);
      } else {
        correlation := Add(correlation, Mul(input[pos + cp - 1], Conj(input[pos + L + cp - 1])));
        energyPrefix := energyPrefix + Norm(input[pos + cp - 1]);
        energyRepetition := energyRepetition + Norm(input[pos + L + cp - 1]);
        correlation := Sub(correlation, Mul(input[pos], Conj(input[pos + L])));
        energyPrefix := energyPrefix - Norm(input[pos]);
        energyRepetition := energyRepetition - Norm(input[pos + L]);
        movingAverageCounter := movingAverageCounter + 1;
      }
      assert Accs() == expected;
      magnitude := MagnitudeOf(Accs());
    }

    /** The block's state, the samples in out and the tags added are those of trace t. */
    ghost predicate Written(t: Trace, out: array<Complex>, nwritten: nat, tags: seq<nat>)
      reads this, out
    {
      State() == t.state && nwritten == |t.out| <= out.Length && out[..nwritten] == t.out && tags == t.tags
    }

    /** detect_start_of_symbol on the current magnitude. */
    method DetectStartOfSymbol() returns (start: bool)
      modifies this
      ensures Detection(start, onTriangle) == Detect(old(onTriangle), magnitude)
      ensures Accs() == old(Accs()) && magnitude == old(magnitude)
      ensures Ctl() == old(Ctl()).(onTriangle := onTriangle)
    {
      if onTriangle {
        if magnitude.Finite? && magnitude.value < 0.5 {
          onTriangle := false;
          return false;
        } else {
          return false;
        }
      } else {
        if magnitude.Finite? && magnitude.value > 0.85 {
          onTriangle := true;
          return true;
        } else {
          return false;
        }
      }
    }

    /**
     * general_work: every sample of the call is processed; the block writes the
     * samples Run emits to out from index 0 on, adds Run's tags, and consumes
     * all noutput_items.
     */
    method GeneralWork(input: seq<Complex>, noutput: nat, out: array<Complex>)
      returns (produced: nat, consumed: nat, tags: seq<nat>)
      requires cfg.Ok() && |input| >= Forecast(noutput) && out.Length >= noutput
      modifies this, out
      ensures Written(Run(cfg, old(State()), input, noutput), out, produced, tags)
      ensures produced <= noutput && out[produced..] == old(out[produced..])
      ensures consumed == noutput
    {
      ghost var s0 := State();
      produced := 0;
      tags := [];
      for i := 0 to noutput
        invariant Written(Run(cfg, s0, input, i), out, produced, tags)
        invariant out[produced..] == old(out[produced..])
      {
        produced, tags := ProcessSample(input, i, out, produced, tags, s0);
      }
      RunShape(cfg, s0, input, noutput);
      consumed := noutput;
    }

    /** One iteration of the loop of general_work. */
    method ProcessSample(input: seq<Complex>, i: nat, out: array<Complex>, nwritten: nat, tags: seq<nat>,
                         ghost s0: SyncState)
      returns (nwritten': nat, tags': seq<nat>)
      requires cfg.Ok() && i + cfg.Period() < |input| && i < out.Length
      requires Written(Run(cfg, s0, input, i), out, nwritten, tags)
      modifies this, out
      ensures Written(Run(cfg, s0, input, i + 1), out, nwritten', tags')
      ensures out[nwritten'..] == old(out[nwritten'..])
    {
      RunStep(cfg, s0, input, i);
      RunShape(cfg, s0, input, i);
      var sample, start := SampleUpdate(input, i);
      nwritten', tags' := nwritten, tags;
      if start {
        tags' := tags' + [i + 1];
      }
      if sample.Some? {
        out[nwritten'] := sample.value;
        nwritten' := nwritten' + 1;
        assert out[..nwritten'] == out[..nwritten] + [sample.value];
      }
    }

    /**
     * The state changes of one iteration of the loop of general_work, for the
     * sample at i; the sample to write, if any, and whether to add a "Start"
     * tag are returned to the loop.
     */
    method SampleUpdate(input: seq<Complex>, i: nat) returns (sample: Option<Complex>, start: bool)
      requires cfg.Ok() && i + cfg.Period() <= |input|
      modifies this
      ensures var o := SampleStep(cfg, old(State()), input, i);
        State() == o.next && sample == o.out && start == o.startTag
    {
      ghost var o := SampleStep(cfg, State(), input, i);
      sample, start := None, false;
      var L, cp := cfg.symbolLength, cfg.cyclicPrefixLength;
      if waitForNull {
        DelayedCorrelationAt(input, i, false);
        var detected := DetectStartOfSymbol();
        if detected {
          if nullDetected && energyPrefix > nullSymbolEnergy * 2.0 {
            frequencyOffset := FrequencyOffset(cfg.fm, correlation);
            start := true;
            symbolElementCount := 0;
            symbolCount := 0;
            nullDetected := false;
            waitForNull := false;
          }
        } else if !nullDetected && NullRatio(energyPrefix, energyRepetition) {
          nullSymbolEnergy := energyPrefix;
          nullDetected := true;
        }
      } else {
        symbolElementCount := symbolElementCount + 1;
        if symbolElementCount >= L + cp {
          symbolCount := symbolCount + 1;
          symbolElementCount := 0;
          if symbolCount >= cfg.symbolsPerFrame {
            symbolCount := 0;
            waitForNull := true;
          } else {
            DelayedCorrelationAt(input, i, true);
            if magnitude.Finite? && magnitude.value > 0.5 {
              frequencyOffset := FrequencyOffset(cfg.fm, correlation);
            } else {
              waitForNull := true;
            }
          }
        } else if cp <= symbolElementCount {
          sample := Some(Mul(input[i], cfg.fm.expj(-frequencyOffset)));
        }
      }
      assert State() == o.next;
    }
  }
}
