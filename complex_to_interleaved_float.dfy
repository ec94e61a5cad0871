/**
 * The complex-to-interleaved-float interpolator: per call it writes the real
 * parts of the input samples to out[i] and the imaginary parts to
 * out[i + symbol_length], producing two floats per sample.
 */
module ComplexToInterleavedFloat {
  import opened Signal

  function Reals(s: seq<Complex>): (r: seq<real>)
    ensures |r| == |s| && forall i :: 0 <= i < |s| ==> r[i] == s[i].re
  {
    seq(|s|, i requires 0 <= i < |s| => s[i].re)
  }

  function Imaginaries(s: seq<Complex>): (r: seq<real>)
    ensures |r| == |s| && forall i :: 0 <= i < |s| ==> r[i] == s[i].im
  {
    seq(|s|, i requires 0 <= i < |s| => s[i].im)
  }

  /**
   * The value left at output position p after the loop over the first h
   * samples: a later iteration's real part overwrites an earlier iteration's
   * imaginary part at the same position.
   */
  function Final(prior: seq<real>, input: seq<Complex>, h: nat, symbolLength: nat, p: nat): real
    requires h <= |input| && p < |prior|
  {
    if p < h then input[p].re
    else if symbolLength <= p < h + symbolLength then input[p - symbolLength].im
    else prior[p]
  }

  /**
   * With one symbol per call (noutput = 2 * symbol_length) the output is all
   * real parts in order followed by all imaginary parts in order.
   */
  lemma OneSymbolLayout(prior: seq<real>, input: seq<Complex>, symbolLength: nat)
    requires |prior| == 2 * symbolLength && |input| >= symbolLength
    ensures seq(2 * symbolLength, p requires 0 <= p < 2 * symbolLength => Final(prior, input, symbolLength, symbolLength, p))
         == Reals(input[..symbolLength]) + Imaginaries(input[..symbolLength])
  {
  }

  /**
   * With two symbols per call the second symbol's real parts land on the
   * first symbol's imaginary slots: position symbol_length ends up holding
   * the real part of sample symbol_length, not the imaginary part of sample 0.
   */
  lemma TwoSymbolsOverwrite(prior: seq<real>, input: seq<Complex>, symbolLength: nat)
    requires symbolLength > 0 && |prior| == 4 * symbolLength && |input| >= 2 * symbolLength
    ensures Final(prior, input, 2 * symbolLength, symbolLength, symbolLength) == input[symbolLength].re
    ensures Final(prior, input, 2 * symbolLength, symbolLength, 3 * symbolLength - 1) == input[2 * symbolLength - 1].im
    ensures forall p :: 3 * symbolLength <= p < 4 * symbolLength ==>
      Final(prior, input, 2 * symbolLength, symbolLength, p) == prior[p]
  {
  }

  lemma WholeSymbols(n: nat, symbolLength: nat)
    requires symbolLength > 0 && n > 0 && n % (2 * symbolLength) == 0
    ensures n / 2 + symbolLength <= n
  {
    var m := n / (2 * symbolLength);
    assert n == m * (2 * symbolLength) == 2 * (m * symbolLength);
    assert m >= 1;
    assert m * symbolLength >= symbolLength;
  }

  class ComplexToInterleavedFloat {
    const symbolLength: nat

    constructor (symbolLength: nat)
      ensures this.symbolLength == symbolLength
    {
      this.symbolLength := symbolLength;
    }

    /** The interpolation factor: two output floats per input sample. */
    function Interpolation(): nat { 2 }

    /** The output multiple set by the constructor. */
    function OutputMultiple(): nat reads this { 2 * symbolLength }

    /** work over noutput output floats, that is noutput/2 input samples. */
    method Work(input: seq<Complex>, noutput: nat, out: array<real>) returns (produced: nat)
      requires symbolLength > 0 && noutput % OutputMultiple() == 0
      requires |input| >= noutput / Interpolation() && out.Length >= noutput
      modifies out
      ensures produced == noutput
      ensures forall p :: 0 <= p < out.Length ==>
        out[p] == Final(old(out[..]), input, noutput / 2, symbolLength, p)
    {
      var h := noutput / 2;
      assert h == 0 || h + symbolLength <= noutput by {
        if noutput > 0 {
          WholeSymbols(noutput, symbolLength);
        }
      }
      var i := 0;
      while i < h
        invariant 0 <= i <= h
        invariant forall p :: 0 <= p < out.Length ==> out[p] == Final(old(out[..]), input, i, symbolLength, p)
      {
        out[i] := input[i].re;
        out[i + symbolLength] := input[i].im;
        i := i + 1;
      }
      return noutput;
    }
  }
}
