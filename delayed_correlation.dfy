/**
 * The two helpers that both synchronisation blocks share word for word:
 * delayed_correlation, the cyclic-prefix correlation against the samples one
 * symbol later together with the energies of both windows, kept as a moving
 * sum that is recomputed from scratch from time to time; and
 * detect_start_of_symbol, a hysteresis detector on the normalised correlation
 * magnitude.
 *
 * Sums are exact (real); the float drift the periodic recomputation guards
 * against is not modelled.
 */
module DelayedCorrelation {
  import opened Signal

  /** The correlation product of sample m with the sample `lag` later. */
  function Product(s: seq<Complex>, m: nat, lag: nat): Complex
    requires m + lag < |s|
  {
    Mul(s[m], Conj(s[m + lag]))
  }

  /** Sum of the correlation products for m in [lo, hi). */
  function CorrelationSum(s: seq<Complex>, lo: nat, hi: nat, lag: nat): Complex
    requires lo <= hi && hi + lag <= |s|
    decreases hi - lo
  {
    if lo == hi then Zero else Add(CorrelationSum(s, lo, hi - 1, lag), Product(s, hi - 1, lag))
  }

  /** Sum of the sample energies |s[m]|^2 for m in [lo, hi). */
  function EnergySum(s: seq<Complex>, lo: nat, hi: nat): (r: real)
    requires lo <= hi <= |s|
    ensures r >= 0.0
    decreases hi - lo
  {
    if lo == hi then 0.0 else EnergySum(s, lo, hi - 1) + Norm(s[hi - 1])
  }

  /** std::real(x * conj(x)) is the energy of x. */
  lemma EnergyOfProduct(x: Complex)
    ensures Mul(x, Conj(x)).re == Norm(x)
  {
  }

  /** Splitting off the first term of a correlation sum. */
  lemma {:induction false} CorrelationSumFirst(s: seq<Complex>, lo: nat, hi: nat, lag: nat)
    requires lo < hi && hi + lag <= |s|
    ensures CorrelationSum(s, lo, hi, lag) == Add(Product(s, lo, lag), CorrelationSum(s, lo + 1, hi, lag))
    decreases hi - lo
  {
    if lo + 1 < hi {
      CorrelationSumFirst(s, lo, hi - 1, lag);
    }
  }

  /** Splitting off the first term of an energy sum. */
  lemma {:induction false} EnergySumFirst(s: seq<Complex>, lo: nat, hi: nat)
    requires lo < hi <= |s|
    ensures EnergySum(s, lo, hi) == Norm(s[lo]) + EnergySum(s, lo + 1, hi)
    decreases hi - lo
  {
    if lo + 1 < hi {
      EnergySumFirst(s, lo, hi - 1);
    }
  }

  /** d_correlation, d_energy_prefix, d_energy_repetition and d_moving_average_counter. */
  datatype Accumulators = Accumulators(correlation: Complex, energyPrefix: real, energyRepetition: real, counter: int)

  /** The condition under which delayed_correlation recomputes everything. */
  predicate FromScratch(counter: int, newCalculation: bool)
  {
    counter > 100000 || counter == 0 || newCalculation
  }

  /**
   * delayed_correlation for the sample at pos of s: the correlation of the
   * cyclic-prefix window [pos, pos + cp) with the window one symbol later, and
   * the energies of both windows. From scratch when FromScratch holds (the
   * counter then goes to 1 on a first computation and to 0 otherwise), else by
   * the moving-sum update, which adds the newest term and removes the term of
   * the current first sample.
   */
  function Step(a: Accumulators, s: seq<Complex>, pos: nat, symbolLength: nat, cp: nat, newCalculation: bool)
    : (r: Accumulators)
    requires 0 < cp && pos + symbolLength + cp <= |s|
    ensures newCalculation ==> r.counter == 0
    ensures 0 <= a.counter <= 100001 ==> 0 <= r.counter <= 100001
    ensures !FromScratch(a.counter, newCalculation) ==> r.counter == a.counter + 1
  {
    if FromScratch(a.counter, newCalculation) then
      Accumulators(CorrelationSum(s, pos, pos + cp, symbolLength),
                   EnergySum(s, pos, pos + cp),
                   EnergySum(s, pos + symbolLength, pos + symbolLength + cp),
                   if a.counter == 0 && !newCalculation then a.counter + 1 else 0)
    else
      var last := pos + cp - 1;
      Accumulators(Sub(Add(a.correlation, Product(s, last, symbolLength)), Product(s, pos, symbolLength)),
                   a.energyPrefix + Norm(s[last]) - Norm(s[pos]),
                   a.energyRepetition + Norm(s[last + symbolLength]) - Norm(s[pos + symbolLength]),
                   a.counter + 1)
  }

  /**
   * The moving sums after a from-scratch computation at sample i0 and
   * incremental updates at the samples up to i0 + k, over one stream.
   */
  function Slide(s: seq<Complex>, i0: nat, k: nat, symbolLength: nat, cp: nat): Accumulators
    requires 0 < cp && i0 + k + symbolLength + cp <= |s|
  {
    if k == 0 then Step(Accumulators(Zero, 0.0, 0.0, 0), s, i0, symbolLength, cp, false)
    else Step(Slide(s, i0, k - 1, symbolLength, cp), s, i0 + k, symbolLength, cp, false)
  }

  /**
   * What the moving sums hold at sample i after a from-scratch computation at
   * i0: the terms of the first sample of the from-scratch window plus those of
   * the window (i, i + cp). The update removes the current first sample rather
   * than the one that left the window, so this is not the sliding window
   * [i, i + cp).
   */
  function Window(s: seq<Complex>, i0: nat, i: nat, symbolLength: nat, cp: nat, counter: int): Accumulators
    requires 0 < cp && i0 <= i && i + symbolLength + cp <= |s|
  {
    Accumulators(Add(Product(s, i0, symbolLength), CorrelationSum(s, i + 1, i + cp, symbolLength)),
                 Norm(s[i0]) + EnergySum(s, i + 1, i + cp),
                 Norm(s[i0 + symbolLength]) + EnergySum(s, i + 1 + symbolLength, i + cp + symbolLength),
                 counter)
  }

  /** After k <= 100000 updates the moving sums hold Window, and the counter has counted them. */
  lemma {:induction false} SlideClosedForm(s: seq<Complex>, i0: nat, k: nat, symbolLength: nat, cp: nat)
    requires 0 < cp && i0 + k + symbolLength + cp <= |s| && k <= 100000
    ensures Slide(s, i0, k, symbolLength, cp) == Window(s, i0, i0 + k, symbolLength, cp, k + 1)
  {
    if k == 0 {
      SlideStart(s, i0, symbolLength, cp);
    } else {
      SlideClosedForm(s, i0, k - 1, symbolLength, cp);
      SlideStep(s, i0, i0 + k, symbolLength, cp, k);
    }
  }

  /** The from-scratch computation at i0 is the first term plus the rest of the window. */
  lemma SlideStart(s: seq<Complex>, i0: nat, symbolLength: nat, cp: nat)
    requires 0 < cp && i0 + symbolLength + cp <= |s|
    ensures Slide(s, i0, 0, symbolLength, cp) == Window(s, i0, i0, symbolLength, cp, 1)
  {
    CorrelationSumFirst(s, i0, i0 + cp, symbolLength);
    EnergySumFirst(s, i0, i0 + cp);
    EnergySumFirst(s, i0 + symbolLength, i0 + symbolLength + cp);
  }

  /** One moving-sum update at sample i turns the window of i - 1 into that of i. */
  lemma SlideStep(s: seq<Complex>, i0: nat, i: nat, symbolLength: nat, cp: nat, k: nat)
    requires 0 < cp && i0 < i && i + symbolLength + cp <= |s| && 1 <= k <= 100000
    ensures Step(Window(s, i0, i - 1, symbolLength, cp, k), s, i, symbolLength, cp, false)
         == Window(s, i0, i, symbolLength, cp, k + 1)
  {
    CorrelationSumFirst(s, i, i + cp, symbolLength);
    EnergySumFirst(s, i, i + cp);
    EnergySumFirst(s, i + symbolLength, i + cp + symbolLength);
  }

  /**
   * After k >= 1 updates the correlation is that of the sliding window
   * [i0 + k, i0 + k + cp) exactly when the stale term of the from-scratch
   * sample i0 equals the term of the current sample i0 + k.
   */
  lemma SlideMissesWindow(s: seq<Complex>, i0: nat, k: nat, symbolLength: nat, cp: nat)
    requires 0 < cp && i0 + k + symbolLength + cp <= |s| && 1 <= k <= 100000
    ensures Slide(s, i0, k, symbolLength, cp).correlation == CorrelationSum(s, i0 + k, i0 + k + cp, symbolLength)
        <==> Product(s, i0, symbolLength) == Product(s, i0 + k, symbolLength)
  {
    SlideClosedForm(s, i0, k, symbolLength, cp);
    CorrelationSumFirst(s, i0 + k, i0 + k + cp, symbolLength);
  }

  /**
   * The moving-sum update as a sliding window needs it: add the term of the
   * newest sample pos + cp - 1 and remove that of pos - 1, which left the window.
   */
  function SlidingStep(a: Accumulators, s: seq<Complex>, pos: nat, symbolLength: nat, cp: nat): Accumulators
    requires 0 < cp && 0 < pos && pos + symbolLength + cp <= |s|
  {
    var last := pos + cp - 1;
    Accumulators(Sub(Add(a.correlation, Product(s, last, symbolLength)), Product(s, pos - 1, symbolLength)),
                 a.energyPrefix + Norm(s[last]) - Norm(s[pos - 1]),
                 a.energyRepetition + Norm(s[last + symbolLength]) - Norm(s[pos - 1 + symbolLength]),
                 a.counter + 1)
  }

  /** The from-scratch sums at i0 followed by k sliding updates. */
  function SlideSliding(s: seq<Complex>, i0: nat, k: nat, symbolLength: nat, cp: nat): Accumulators
    requires 0 < cp && i0 + k + symbolLength + cp <= |s|
  {
    if k == 0 then Step(Accumulators(Zero, 0.0, 0.0, 0), s, i0, symbolLength, cp, false)
    else SlidingStep(SlideSliding(s, i0, k - 1, symbolLength, cp), s, i0 + k, symbolLength, cp)
  }

  /**
   * With the sliding update the sums after k updates are exactly those of the
   * window [i0 + k, i0 + k + cp) and of its repetition one symbol later.
   */
  lemma {:induction false} SlidingClosedForm(s: seq<Complex>, i0: nat, k: nat, symbolLength: nat, cp: nat)
    requires 0 < cp && i0 + k + symbolLength + cp <= |s|
    ensures var a := SlideSliding(s, i0, k, symbolLength, cp);
      && a.correlation == CorrelationSum(s, i0 + k, i0 + k + cp, symbolLength)
      && a.energyPrefix == EnergySum(s, i0 + k, i0 + k + cp)
      && a.energyRepetition == EnergySum(s, i0 + k + symbolLength, i0 + k + symbolLength + cp)
  {
    if k > 0 {
      var i := i0 + k;
      SlidingClosedForm(s, i0, k - 1, symbolLength, cp);
      CorrelationSumFirst(s, i - 1, i - 1 + cp, symbolLength);
      EnergySumFirst(s, i - 1, i - 1 + cp);
      EnergySumFirst(s, i - 1 + symbolLength, i - 1 + symbolLength + cp);
    }
  }

  /**
   * The counter limits the run of moving-sum updates: one that reached 100001
   * (100000 updates after a first computation) recomputes from scratch and
   * restarts at 0, and a counter of 0 recomputes from scratch as well.
   */
  lemma UpdatesBounded(a: Accumulators, s: seq<Complex>, pos: nat, symbolLength: nat, cp: nat)
    requires 0 < cp && pos + symbolLength + cp <= |s|
    ensures a.counter == 100001 ==>
      FromScratch(a.counter, false) && Step(a, s, pos, symbolLength, cp, false).counter == 0
    ensures a.counter == 0 ==> Step(a, s, pos, symbolLength, cp, false).counter == 1
    ensures Step(a, s, pos, symbolLength, cp, true).correlation == CorrelationSum(s, pos, pos + cp, symbolLength)
  {
  }

  /**
   * d_correlation_normalized_magnitude: |correlation / sqrt(prefix * repetition)|^2,
   * which over exact reals is |correlation|^2 / (prefix * repetition). A zero
   * or negative energy product gives a float NaN, which fails every comparison.
   */
  datatype Magnitude = Finite(value: real) | NaN

  function MagnitudeOf(a: Accumulators): Magnitude
  {
    var p := a.energyPrefix * a.energyRepetition;
    if p > 0.0 then Finite(Norm(a.correlation) / p) else NaN
  }

  /** The magnitude is finite exactly for a positive energy product, and then scales back to |correlation|^2. */
  lemma MagnitudeScale(a: Accumulators)
    ensures MagnitudeOf(a).Finite? <==> a.energyPrefix * a.energyRepetition > 0.0
    ensures MagnitudeOf(a).Finite? ==>
      MagnitudeOf(a).value * (a.energyPrefix * a.energyRepetition) == Norm(a.correlation)
    ensures MagnitudeOf(a).Finite? ==> MagnitudeOf(a).value >= 0.0
  {
  }

  /** magnitude > t, false on NaN. */
  predicate Above(m: Magnitude, t: real)
  {
    m.Finite? && m.value > t
  }

  /** magnitude < t, false on NaN. */
  predicate Below(m: Magnitude, t: real)
  {
    m.Finite? && m.value < t
  }

  /**
   * The float test prefix / repetition < 0.1 over exact reals: a zero divisor
   * gives +inf, -inf or NaN, so the test then holds only for a negative
   * prefix energy.
   */
  predicate NullRatio(energyPrefix: real, energyRepetition: real)
  {
    if energyRepetition != 0.0 then energyPrefix / energyRepetition < 0.1 else energyPrefix < 0.0
  }

  /** The frequency offset both synchronisers derive from a correlation, in rad/s. */
  function FrequencyOffset(fm: FloatMath, correlation: Complex): real
  {
    fm.arg(correlation) / 0.001246
  }

  /** The result of detect_start_of_symbol and the new d_on_triangle. */
  datatype Detection = Detection(start: bool, onTriangle: bool)

  /**
   * detect_start_of_symbol: a start is reported when the magnitude rises above
   * 0.85 while not on a correlation triangle; the triangle is left when the
   * magnitude falls below 0.5.
   */
  function Detect(onTriangle: bool, m: Magnitude): (r: Detection)
    ensures r.start <==> !onTriangle && Above(m, 0.85)
    ensures r.start ==> r.onTriangle
    ensures onTriangle && !r.onTriangle <==> onTriangle && Below(m, 0.5)
    ensures !onTriangle && r.onTriangle ==> r.start
  {
    if onTriangle then
      if Below(m, 0.5) then Detection(false, false) else Detection(false, true)
    else
      if Above(m, 0.85) then Detection(true, true) else Detection(false, false)
  }

  /** d_on_triangle after the detector has seen the first n magnitudes. */
  function TriangleAfter(onTriangle: bool, ms: seq<Magnitude>, n: nat): bool
    requires n <= |ms|
  {
    if n == 0 then onTriangle else Detect(TriangleAfter(onTriangle, ms, n - 1), ms[n - 1]).onTriangle
  }

  /** The detector's answer on magnitude n. */
  predicate DetectedAt(onTriangle: bool, ms: seq<Magnitude>, n: nat)
    requires n < |ms|
  {
    Detect(TriangleAfter(onTriangle, ms, n), ms[n]).start
  }

  /** Without a magnitude below 0.5, the detector stays on the triangle. */
  lemma {:induction false} StaysOnTriangle(onTriangle: bool, ms: seq<Magnitude>, a: nat, b: nat)
    requires a <= b <= |ms| && TriangleAfter(onTriangle, ms, a)
    requires forall c :: a <= c < b ==> !Below(ms[c], 0.5)
    ensures TriangleAfter(onTriangle, ms, b)
    decreases b - a
  {
    if a < b {
      StaysOnTriangle(onTriangle, ms, a, b - 1);
    }
  }

  /** Hysteresis: between two reported starts the magnitude has fallen below 0.5. */
  lemma NoDoubleStart(onTriangle: bool, ms: seq<Magnitude>, a: nat, b: nat)
    requires a < b < |ms| && DetectedAt(onTriangle, ms, a) && DetectedAt(onTriangle, ms, b)
    ensures exists c :: a < c < b && Below(ms[c], 0.5)
  {
    if forall c :: a < c < b ==> !Below(ms[c], 0.5) {
      StaysOnTriangle(onTriangle, ms, a + 1, b);
      assert false;
    }
  }

  /**
   * The from-scratch loops of delayed_correlation: the correlation and the two
   * window energies at pos, accumulated term by term.
   */
  method FullCorrelation(s: seq<Complex>, pos: nat, symbolLength: nat, cp: nat)
    returns (correlation: Complex, energyPrefix: real, energyRepetition: real)
    requires pos + symbolLength + cp <= |s|
    ensures correlation == CorrelationSum(s, pos, pos + cp, symbolLength)
    ensures energyPrefix == EnergySum(s, pos, pos + cp)
    ensures energyRepetition == EnergySum(s, pos + symbolLength, pos + symbolLength + cp)
  {
    correlation := Zero;
    for j := 0 to cp
      invariant correlation == CorrelationSum(s, pos, pos + j, symbolLength)
    {
      correlation := Add(correlation, Mul(s[pos + j], Conj(s[pos + symbolLength + j])));
    }
    energyPrefix := 0.0;
    for j := 0 to cp
      invariant energyPrefix == EnergySum(s, pos, pos + j)
    {
      EnergyOfProduct(s[pos + j]);
      energyPrefix := energyPrefix + Mul(s[pos + j], Conj(s[pos + j])).re;
    }
    energyRepetition := 0.0;
    for j := 0 to cp
      invariant energyRepetition == EnergySum(s, pos + symbolLength, pos + symbolLength + j)
    {
      EnergyOfProduct(s[pos + symbolLength + j]);
      energyRepetition := energyRepetition + Mul(s[pos + symbolLength + j], Conj(s[pos + symbolLength + j])).re;
    }
  }
}
