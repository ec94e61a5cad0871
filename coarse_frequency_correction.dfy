/**
 * Coarse frequency correction. On the phase reference symbol of each frame
 * (the item carrying a "Start" tag) the block slides a window of
 * num_carriers + 1 FFT bins, less its centre (DC) bin, over the symbol and
 * keeps the offset at which the window holds the most energy; it then
 * estimates the SNR from the occupied and the empty bins. Every symbol is
 * reduced to its num_carriers sub-carriers at that offset, the DC bin dropped.
 *
 * Energies are exact reals: |x|^2 of a sample is Norm(x).
 */
module CoarseFrequencyCorrection {
  import opened Signal

  /** The energy of every bin of a symbol. */
  function Powers(symbol: seq<Complex>): (r: seq<real>)
    ensures |r| == |symbol|
    ensures forall k :: 0 <= k < |r| ==> r[k] == Norm(symbol[k])
  {
    seq(|symbol|, k requires 0 <= k < |symbol| => Norm(symbol[k]))
  }

  /** The total of e over the bins [lo, hi). */
  function Sum(e: seq<real>, lo: nat, hi: nat): real
    requires lo <= hi <= |e|
    decreases hi - lo
  {
    if lo == hi then 0.0 else Sum(e, lo, hi - 1) + e[hi - 1]
  }

  lemma {:induction false} SumFirst(e: seq<real>, lo: nat, hi: nat)
    requires lo < hi <= |e|
    ensures Sum(e, lo, hi) == e[lo] + Sum(e, lo + 1, hi)
  {
    if hi - 1 > lo {
      SumFirst(e, lo, hi - 1);
    }
  }

  lemma {:induction false} SumSplit(e: seq<real>, lo: nat, mid: nat, hi: nat)
    requires lo <= mid <= hi <= |e|
    ensures Sum(e, lo, hi) == Sum(e, lo, mid) + Sum(e, mid, hi)
  {
    if hi > mid {
      SumSplit(e, lo, mid, hi - 1);
    }
  }

  /**
   * The energy of the window at offset i: the n + 1 bins [i, i + n] without
   * their centre bin i + n/2.
   */
  function WindowEnergy(e: seq<real>, n: nat, i: nat): real
    requires i + n < |e|
  {
    Sum(e, i, i + n + 1) - e[i + n / 2]
  }

  /**
   * Moving the window from offset i - 1 to i drops bin i - 1, takes the old
   * centre bin back in, drops the new centre bin and takes bin i + n in: the
   * four-term update of measure_energy is an exact moving sum.
   */
  lemma WindowStep(e: seq<real>, n: nat, i: nat)
    requires 1 <= i && i + n < |e|
    ensures WindowEnergy(e, n, i)
         == WindowEnergy(e, n, i - 1) - e[i - 1] + e[i + n / 2 - 1] - e[i + n / 2] + e[i + n]
  {
    SumFirst(e, i - 1, i + n + 1);
  }

  /** The same step, with the bins' energies read off the symbol as measure_energy does. */
  lemma WindowStepOfSymbol(symbol: seq<Complex>, n: nat, i: nat)
    requires 1 <= i && i + n < |symbol|
    ensures WindowEnergy(Powers(symbol), n, i)
         == WindowEnergy(Powers(symbol), n, i - 1) - Norm(symbol[i - 1]) + Norm(symbol[i + n / 2 - 1])
            - Norm(symbol[i + n / 2]) + Norm(symbol[i + n])
  {
    WindowStep(Powers(symbol), n, i);
  }

  /**
   * The offset in [0, m) whose window holds the most energy, the first one
   * among equals: a later offset replaces the best so far only when its
   * energy is strictly greater.
   */
  function FirstMax(e: seq<real>, n: nat, m: nat): (r: nat)
    requires 1 <= m && m + n <= |e|
    ensures r < m
  {
    if m == 1 then 0
    else
      var best := FirstMax(e, n, m - 1);
      if WindowEnergy(e, n, m - 1) > WindowEnergy(e, n, best) then m - 1 else best
  }

  /** r is the smallest offset in [0, m) at which the window energy is maximal. */
  predicate IsFirstMaximum(e: seq<real>, n: nat, m: nat, r: nat)
    requires m + n <= |e|
  {
    r < m
    && (forall j :: 0 <= j < m ==> WindowEnergy(e, n, j) <= WindowEnergy(e, n, r))
    && (forall j :: 0 <= j < r ==> WindowEnergy(e, n, j) < WindowEnergy(e, n, r))
  }

  lemma {:induction false} FirstMaxIsFirstMaximum(e: seq<real>, n: nat, m: nat)
    requires 1 <= m && m + n <= |e|
    ensures IsFirstMaximum(e, n, m, FirstMax(e, n, m))
  {
    if m > 1 {
      FirstMaxIsFirstMaximum(e, n, m - 1);
    }
  }

  /** There is only one first maximum, so the scan's result is determined by the energies. */
  lemma FirstMaximumUnique(e: seq<real>, n: nat, m: nat, a: nat, b: nat)
    requires m + n <= |e|
    requires IsFirstMaximum(e, n, m, a) && IsFirstMaximum(e, n, m, b)
    ensures a == b
  {
    assert WindowEnergy(e, n, a) == WindowEnergy(e, n, b);
  }

  /**
   * The energy of the empty bins for offset off: the bins below the window,
   * its centre bin, and the bins above it.
   */
  function NoiseEnergy(e: seq<real>, n: nat, off: nat): real
    requires off + n < |e|
  {
    Sum(e, 0, off) + e[off + n / 2] + Sum(e, off + n + 1, |e|)
  }

  /** Occupied and empty bins partition the symbol: their energies add up to the whole. */
  lemma EnergyPartition(e: seq<real>, n: nat, off: nat)
    requires off + n < |e|
    ensures WindowEnergy(e, n, off) + NoiseEnergy(e, n, off) == Sum(e, 0, |e|)
  {
    SumSplit(e, 0, off, |e|);
    SumSplit(e, off, off + n + 1, |e|);
  }

  /** A symbol of fft bins, each of energy 1: sums over it count bins. */
  function Ones(fft: nat): (r: seq<real>)
    ensures |r| == fft && forall k :: 0 <= k < fft ==> r[k] == 1.0
  {
    seq(fft, k => 1.0)
  }

  lemma {:induction false} SumOfOnes(fft: nat, lo: nat, hi: nat)
    requires lo <= hi <= fft
    ensures Sum(Ones(fft), lo, hi) == (hi - lo) as real
  {
    if hi > lo {
      SumOfOnes(fft, lo, hi - 1);
    }
  }

  /**
   * measure_snr's divisors are the sizes of the two parts: n occupied bins
   * and fft - n empty ones.
   */
  lemma BinCounts(fft: nat, n: nat, off: nat)
    requires off + n < fft
    ensures WindowEnergy(Ones(fft), n, off) == n as real
    ensures NoiseEnergy(Ones(fft), n, off) == (fft - n) as real
  {
    SumOfOnes(fft, off, off + n + 1);
    SumOfOnes(fft, 0, off);
    SumOfOnes(fft, off + n + 1, fft);
  }

  /**
   * The d_snr that measure_snr leaves: recomputed from the energies per bin
   * when the occupied bins carry more than the empty ones, otherwise the
   * previous value.
   */
  function MeasuredSnr(fm: FloatMath, e: seq<real>, n: nat, off: nat, previous: real): real
    requires 0 < n && off + n < |e|
  {
    var signal := WindowEnergy(e, n, off) / n as real;
    var noise := NoiseEnergy(e, n, off) / (|e| - n) as real;
    if signal > noise then fm.snrDb(signal, noise) else previous
  }

  /** d_snr changes only when the occupied bins carry more energy per bin than the empty ones. */
  lemma SnrKeptUnlessSignalDominates(fm: FloatMath, e: seq<real>, n: nat, off: nat, previous: real)
    requires 0 < n && off + n < |e|
    ensures MeasuredSnr(fm, e, n, off, previous) != previous
        ==> WindowEnergy(e, n, off) / n as real > NoiseEnergy(e, n, off) / (|e| - n) as real
  {
  }

  /**
   * The num_carriers sub-carriers at offset off: bins [off, off + n/2) and
   * then [off + n/2 + 1, off + n/2 + 1 + n/2), the DC bin off + n/2 left out.
   */
  function Extract(symbol: seq<Complex>, n: nat, off: nat): (r: seq<Complex>)
    requires off + n < |symbol|
    ensures |r| == 2 * (n / 2)
    ensures forall j :: 0 <= j < n / 2 ==> r[j] == symbol[off + j]
    ensures forall j :: n / 2 <= j < |r| ==> r[j] == symbol[off + j + 1]
  {
    seq(2 * (n / 2), j requires 0 <= j < 2 * (n / 2) => if j < n / 2 then symbol[off + j] else symbol[off + j + 1])
  }

  /**
   * The extracted sub-carriers are the window whose energy decided the
   * offset: their energy is the window energy (less the window's top bin when
   * n is odd, for which only 2 (n/2) carriers are copied).
   */
  lemma ExtractedEnergy(symbol: seq<Complex>, n: nat, off: nat)
    requires off + n < |symbol|
    ensures Sum(Powers(Extract(symbol, n, off)), 0, 2 * (n / 2))
         == WindowEnergy(Powers(symbol), n, off) - (if n % 2 == 1 then Norm(symbol[off + n]) else 0.0)
  {
    var h := n / 2;
    SumSplit(Powers(Extract(symbol, n, off)), 0, h, 2 * h);
    ExtractedHalves(symbol, n, off);
    WindowHalves(Powers(symbol), n, off);
  }

  /** Each half of the extracted carriers has the energy of the bins it was copied from. */
  lemma ExtractedHalves(symbol: seq<Complex>, n: nat, off: nat)
    requires off + n < |symbol|
    ensures Sum(Powers(Extract(symbol, n, off)), 0, n / 2) == Sum(Powers(symbol), off, off + n / 2)
    ensures Sum(Powers(Extract(symbol, n, off)), n / 2, 2 * (n / 2))
         == Sum(Powers(symbol), off + n / 2 + 1, off + n / 2 + 1 + n / 2)
  {
    var y := Extract(symbol, n, off);
    assert forall j :: 0 <= j < n / 2 ==> y[j] == symbol[j - 0 + off];
    PowersShifted(y, 0, symbol, off, n / 2);
    UpperHalf(symbol, n, off);
  }

  lemma UpperHalf(symbol: seq<Complex>, n: nat, off: nat)
    requires off + n < |symbol|
    ensures Sum(Powers(Extract(symbol, n, off)), n / 2, 2 * (n / 2))
         == Sum(Powers(symbol), off + n / 2 + 1, off + n / 2 + 1 + n / 2)
  {
    var h := n / 2;
    UpperHalfCopied(symbol, n, off);
    PowersShifted(Extract(symbol, n, off), h, symbol, off + h + 1, h);
  }

  /** The upper half of the extracted carriers is the bins just above the window's centre bin. */
  lemma UpperHalfCopied(symbol: seq<Complex>, n: nat, off: nat)
    requires off + n < |symbol|
    ensures var h := n / 2; var y := Extract(symbol, n, off);
      forall j :: h <= j < h + h ==> y[j] == symbol[j - h + (off + h + 1)]
  {
  }

  /** Samples copied from [b, b + len) to [a, a + len) carry the same energy. */
  lemma PowersShifted(y: seq<Complex>, a: nat, symbol: seq<Complex>, b: nat, len: nat)
    requires a + len <= |y| && b + len <= |symbol|
    requires forall j :: a <= j < a + len ==> y[j] == symbol[j - a + b]
    ensures Sum(Powers(y), a, a + len) == Sum(Powers(symbol), b, b + len)
  {
    SumShifted(Powers(y), a, Powers(symbol), b, len);
  }

  /** The window without its centre bin is the two halves either side of it (and the top bin when n is odd). */
  lemma WindowHalves(e: seq<real>, n: nat, off: nat)
    requires off + n < |e|
    ensures WindowEnergy(e, n, off)
         == Sum(e, off, off + n / 2) + Sum(e, off + n / 2 + 1, off + n / 2 + 1 + n / 2)
            + (if n % 2 == 1 then e[off + n] else 0.0)
  {
    SumSplit(e, off, off + n / 2, off + n + 1);
    SumFirst(e, off + n / 2, off + n + 1);
  }

  /** The bins [a, a + len) of x are the bins [b, b + len) of e. */
  lemma {:induction false} SumShifted(x: seq<real>, a: nat, e: seq<real>, b: nat, len: nat)
    requires a + len <= |x| && b + len <= |e|
    requires forall j :: a <= j < a + len ==> x[j] == e[j - a + b]
    ensures Sum(x, a, a + len) == Sum(e, b, b + len)
  {
    if len > 0 {
      SumShifted(x, a, e, b, len - 1);
    }
  }

  /** d_freq_offset and d_snr. */
  datatype Estimate = Estimate(offset: nat, snr: real)

  class CoarseFrequencyCorrection {
    const fftLength: nat
    const numCarriers: nat
    const cyclicPrefixLength: int
    /** The natural-log SNR formula is left uninterpreted. */
    const fm: FloatMath
    var freqOffset: nat
    var snr: real

    /** The window and its neighbour fit in a symbol, and the offset leaves room for the window. */
    predicate Shape()
    {
      0 < numCarriers < fftLength
    }

    predicate Valid()
      reads this
    {
      Shape() && freqOffset + numCarriers < fftLength
    }

    /** The constructor starts with offset 0 and SNR 0. */
    constructor (fftLength: nat, numCarriers: nat, cyclicPrefixLength: int, fm: FloatMath)
      requires 0 < numCarriers < fftLength
      ensures Valid()
      ensures this.fftLength == fftLength && this.numCarriers == numCarriers
      ensures this.cyclicPrefixLength == cyclicPrefixLength && this.fm == fm
      ensures freqOffset == 0 && snr == 0.0
    {
      this.fftLength, this.numCarriers, this.cyclicPrefixLength, this.fm := fftLength, numCarriers, cyclicPrefixLength, fm;
      freqOffset, snr := 0, 0.0;
    }

    /**
     * measure_energy: the offset becomes the first offset of maximal window
     * energy among the fft - n candidates.
     */
    method MeasureEnergy(symbol: seq<Complex>)
      requires Valid() && |symbol| == fftLength
      modifies this
      ensures Valid()
      ensures freqOffset == FirstMax(Powers(symbol), numCarriers, fftLength - numCarriers)
      ensures snr == old(snr)
    {
      ghost var e := Powers(symbol);
      var energy := OccupiedEnergy(symbol, 0);
      var max := energy;
      var index := 0;
      var i := 1;
      while i < fftLength - numCarriers
        invariant 1 <= i <= fftLength - numCarriers && unchanged(this)
        invariant energy == WindowEnergy(e, numCarriers, i - 1)
        invariant index == FirstMax(e, numCarriers, i) && max == WindowEnergy(e, numCarriers, index)
      {
        energy, max, index := ScanStep(symbol, i, energy, max, index);
        i := i + 1;
      }
      freqOffset := index;
    }

    /** One step of the scan: the window moves to offset i and is compared with the best so far. */
    method ScanStep(symbol: seq<Complex>, i: nat, energy: real, max: real, index: nat)
      returns (energy': real, max': real, index': nat)
      requires Shape() && |symbol| == fftLength && 1 <= i < fftLength - numCarriers
      requires energy == WindowEnergy(Powers(symbol), numCarriers, i - 1)
      requires index == FirstMax(Powers(symbol), numCarriers, i) && max == WindowEnergy(Powers(symbol), numCarriers, index)
      ensures energy' == WindowEnergy(Powers(symbol), numCarriers, i)
      ensures index' == FirstMax(Powers(symbol), numCarriers, i + 1) && max' == WindowEnergy(Powers(symbol), numCarriers, index')
    {
      energy' := energy - Norm(symbol[i - 1]);
      energy' := energy' + Norm(symbol[i + numCarriers / 2 - 1]);
      energy' := energy' - Norm(symbol[i + numCarriers / 2]);
      energy' := energy' + Norm(symbol[i + numCarriers]);
      WindowStepOfSymbol(symbol, numCarriers, i);
      max', index' := max, index;
      if energy' > max {
        max', index' := energy', i;
      }
    }

    /** The window at offset off, summed bin by bin, skipping the centre bin. */
    method OccupiedEnergy(symbol: seq<Complex>, off: nat) returns (energy: real)
      requires Shape() && |symbol| == fftLength && off + numCarriers < fftLength
      ensures energy == WindowEnergy(Powers(symbol), numCarriers, off)
    {
      ghost var e := Powers(symbol);
      energy := 0.0;
      var i := 0;
      while i < numCarriers + 1
        invariant 0 <= i <= numCarriers + 1
        invariant energy == Sum(e, off, off + i) - (if i > numCarriers / 2 then e[off + numCarriers / 2] else 0.0)
      {
        if i != numCarriers / 2 {
          energy := energy + Norm(symbol[i + off]);
        }
        i := i + 1;
      }
    }

    /** The bins outside the window at offset off, plus its centre bin, summed bin by bin. */
    method EmptyEnergy(symbol: seq<Complex>, off: nat) returns (noise: real)
      requires Shape() && |symbol| == fftLength && off + numCarriers < fftLength
      ensures noise == NoiseEnergy(Powers(symbol), numCarriers, off)
    {
      ghost var e := Powers(symbol);
      noise := 0.0;
      var i := 0;
      while i < off
        invariant 0 <= i <= off
        invariant noise == Sum(e, 0, i)
      {
        noise := noise + Norm(symbol[i]);
        i := i + 1;
      }
      noise := noise + Norm(symbol[off + numCarriers / 2]);
      i := 0;
      while i < fftLength - numCarriers - off - 1
        invariant 0 <= i <= fftLength - numCarriers - off - 1
        invariant noise == Sum(e, 0, off) + e[off + numCarriers / 2]
                         + Sum(e, off + numCarriers + 1, off + numCarriers + 1 + i)
      {
        noise := noise + Norm(symbol[i + off + numCarriers + 1]);
        i := i + 1;
      }
    }

    /**
     * measure_snr: the energy per occupied bin against the energy per empty
     * bin, at the current offset.
     */
    method MeasureSnr(symbol: seq<Complex>)
      requires Valid() && |symbol| == fftLength
      modifies this
      ensures Valid() && freqOffset == old(freqOffset)
      ensures snr == MeasuredSnr(fm, Powers(symbol), numCarriers, freqOffset, old(snr))
    {
      var energy := OccupiedEnergy(symbol, freqOffset);
      var noise := EmptyEnergy(symbol, freqOffset);
      energy := energy / numCarriers as real;
      noise := noise / (fftLength - numCarriers) as real;
      if energy > noise {
        snr := fm.snrDb(energy, noise);
      }
    }

    /** The estimate after a tagged symbol: both measurements on that symbol. */
    function Measure(symbol: seq<Complex>, s: Estimate): (r: Estimate)
      requires Shape() && |symbol| == fftLength
      ensures r.offset + numCarriers < fftLength
    {
      var e := Powers(symbol);
      var off := FirstMax(e, numCarriers, fftLength - numCarriers);
      Estimate(off, MeasuredSnr(fm, e, numCarriers, off, s.snr))
    }

    /** The estimate used for item i: re-measured on a tagged item, carried over otherwise. */
    function EstimateAt(input: seq<seq<Complex>>, tags: seq<nat>, s0: Estimate, i: nat): (r: Estimate)
      requires Shape() && s0.offset + numCarriers < fftLength
      requires i < |input| && forall j :: 0 <= j <= i ==> |input[j]| == fftLength
      ensures r.offset + numCarriers < fftLength
    {
      var before := if i == 0 then s0 else EstimateAt(input, tags, s0, i - 1);
      if HitAt(tags, i) then Measure(input[i], before) else before
    }

    /**
     * Without a tag on items [0, i], every item reuses the offset and SNR the
     * block had before the call.
     */
    lemma {:induction false} UntaggedKeepsEstimate(input: seq<seq<Complex>>, tags: seq<nat>, s0: Estimate, i: nat)
      requires Shape() && s0.offset + numCarriers < fftLength
      requires i < |input| && forall j :: 0 <= j <= i ==> |input[j]| == fftLength
      requires forall j :: 0 <= j <= i ==> j !in tags
      ensures EstimateAt(input, tags, s0, i) == s0
    {
      assert !HitAt(tags, i) by {
        var c := TagCursor(tags, i);
        if c < |tags| {
          assert tags[c] in tags;
        }
      }
      if i > 0 {
        UntaggedKeepsEstimate(input, tags, s0, i - 1);
      }
    }

    /**
     * A tagged item (strictly ascending tags) re-measures on its own symbol:
     * the offset is the first maximum of that symbol's window energies.
     */
    lemma TaggedItemMeasures(input: seq<seq<Complex>>, tags: seq<nat>, s0: Estimate, i: nat)
      requires Shape() && s0.offset + numCarriers < fftLength
      requires i < |input| && forall j :: 0 <= j <= i ==> |input[j]| == fftLength
      requires StrictlyAscending(tags) && i in tags
      ensures IsFirstMaximum(Powers(input[i]), numCarriers, fftLength - numCarriers,
                             EstimateAt(input, tags, s0, i).offset)
    {
      TagsHonoured(tags, i);
      var before := if i == 0 then s0 else EstimateAt(input, tags, s0, i - 1);
      assert EstimateAt(input, tags, s0, i) == Measure(input[i], before);
      FirstMaxIsFirstMaximum(Powers(input[i]), numCarriers, fftLength - numCarriers);
    }

    /**
     * work: for each item, re-measure when a tag sits exactly on it, then copy
     * its num_carriers sub-carriers into the output vector. With an odd
     * num_carriers the last element of an output vector is not written.
     */
    method Work(input: seq<seq<Complex>>, tags: seq<nat>, noutput: nat, out: array<seq<Complex>>)
      returns (produced: nat)
      requires Valid()
      requires noutput <= |input| && noutput <= out.Length
      requires forall j :: 0 <= j < noutput ==> |input[j]| == fftLength && |out[j]| == numCarriers
      modifies this, out
      ensures Valid() && produced == noutput
      ensures noutput > 0 ==>
        Estimate(freqOffset, snr) == EstimateAt(input, tags, Estimate(old(freqOffset), old(snr)), noutput - 1)
      ensures noutput == 0 ==> freqOffset == old(freqOffset) && snr == old(snr)
      ensures forall j :: 0 <= j < noutput ==>
        out[j] == Extract(input[j], numCarriers, EstimateAt(input, tags, Estimate(old(freqOffset), old(snr)), j).offset)
                  + old(out[..])[j][2 * (numCarriers / 2)..]
      ensures forall j :: noutput <= j < out.Length ==> out[j] == old(out[..])[j]
    {
      ghost var s0 := Estimate(freqOffset, snr);
      ghost var original := out[..];
      var tagCount := 0;
      var i := 0;
      while i < noutput
        invariant 0 <= i <= noutput && Valid()
        invariant tagCount == TagCursor(tags, i)
        invariant Estimate(freqOffset, snr) == if i == 0 then s0 else EstimateAt(input, tags, s0, i - 1)
        invariant forall j :: 0 <= j < i ==>
          out[j] == Extract(input[j], numCarriers, EstimateAt(input, tags, s0, j).offset)
                    + original[j][2 * (numCarriers / 2)..]
        invariant forall j :: i <= j < out.Length ==> out[j] == original[j]
      {
        tagCount := UpdateEstimate(input, tags, s0, i, tagCount);
        out[i] := Extract(input[i], numCarriers, freqOffset) + out[i][2 * (numCarriers / 2)..];
        i := i + 1;
      }
      produced := noutput;
    }

    /** The first half of an item of work: re-measure if the next tag sits on it. */
    method UpdateEstimate(input: seq<seq<Complex>>, tags: seq<nat>, ghost s0: Estimate, i: nat, tagCount: nat)
      returns (tagCount': nat)
      requires Valid() && s0.offset + numCarriers < fftLength
      requires i < |input| && forall j :: 0 <= j <= i ==> |input[j]| == fftLength
      requires tagCount == TagCursor(tags, i)
      requires Estimate(freqOffset, snr) == if i == 0 then s0 else EstimateAt(input, tags, s0, i - 1)
      modifies this
      ensures Valid() && tagCount' == TagCursor(tags, i + 1)
      ensures Estimate(freqOffset, snr) == EstimateAt(input, tags, s0, i)
    {
      tagCount' := tagCount;
      if tagCount < |tags| && tags[tagCount] == i {
        MeasureEnergy(input[i]);
        MeasureSnr(input[i]);
        tagCount' := tagCount + 1;
      }
    }
  }
}
