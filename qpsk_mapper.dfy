/**
 * The QPSK mapper: each input vector of symbol_length/4 bytes becomes one
 * output vector of symbol_length QPSK symbols. The bits of the first half of
 * the bytes give the signs of the real parts, the bits of the second half the
 * signs of the imaginary parts, most significant bit first; a set bit maps to
 * -1/sqrt(2), a clear bit to +1/sqrt(2).
 */
module QpskMapper {
  import opened Signal

  /** The two output amplitudes: Plus is +I_SQRT2, Minus is -I_SQRT2. */
  datatype Sign = Plus | Minus

  /** One output sample, as the signs of its real and imaginary parts. */
  datatype Symbol = Symbol(re: Sign, im: Sign)

  /** Bit k of a byte, counted from the most significant bit (the mask 0x80 >> k). */
  predicate BitSet(b: byte, k: nat)
    requires k < 8
  {
    b & ((0x80 as bv8) >> k) != 0
  }

  function SignOf(b: byte, k: nat): Sign
    requires k < 8
  {
    if BitSet(b, k) then Minus else Plus
  }

  /** The number of output positions the loops write: 8 per byte of each half. */
  function Written(symbolLength: nat): nat { symbolLength / 8 * 8 }

  /** The symbol at output position p of a vector mapped from `bytes`. */
  function MappedAt(bytes: seq<byte>, symbolLength: nat, p: nat): Symbol
    requires |bytes| == symbolLength / 4 && p < Written(symbolLength)
  {
    Symbol(SignOf(bytes[p / 8], p % 8), SignOf(bytes[symbolLength / 8 + p / 8], p % 8))
  }

  /** The whole output vector, for a symbol length that is a multiple of 8. */
  function MapVector(bytes: seq<byte>, symbolLength: nat): (r: seq<Symbol>)
    requires symbolLength % 8 == 0 && |bytes| == symbolLength / 4
    ensures |r| == symbolLength
  {
    seq(symbolLength, p requires 0 <= p < symbolLength => MappedAt(bytes, symbolLength, p))
  }

  /** Reassembles a byte from the signs of eight consecutive outputs. */
  function ByteOf(signs: seq<Sign>): byte
    requires |signs| == 8
  {
    (if signs[0] == Minus then 0x80 else 0) | (if signs[1] == Minus then 0x40 else 0)
    | (if signs[2] == Minus then 0x20 else 0) | (if signs[3] == Minus then 0x10 else 0)
    | (if signs[4] == Minus then 0x08 else 0) | (if signs[5] == Minus then 0x04 else 0)
    | (if signs[6] == Minus then 0x02 else 0) | (if signs[7] == Minus then 0x01 else 0)
  }

  /** The signs of the real (or imaginary) parts of outputs 8j .. 8j+7. */
  function Signs(v: seq<Symbol>, j: nat, imaginary: bool): (r: seq<Sign>)
    requires 8 * j + 8 <= |v|
    ensures |r| == 8
  {
    seq(8, k requires 0 <= k < 8 => if imaginary then v[8 * j + k].im else v[8 * j + k].re)
  }

  /** The bytes read back from the real (or imaginary) parts of a vector. */
  function DemapHalf(v: seq<Symbol>, imaginary: bool): (r: seq<byte>)
    requires |v| % 8 == 0
    ensures |r| == |v| / 8
  {
    seq(|v| / 8, j requires 0 <= j < |v| / 8 => ByteOf(Signs(v, j, imaginary)))
  }

  /** The sign de-mapper: real-part bytes first, then imaginary-part bytes. */
  function Demap(v: seq<Symbol>): (r: seq<byte>)
    requires |v| % 8 == 0
    ensures |r| == |v| / 4
  {
    DemapHalf(v, false) + DemapHalf(v, true)
  }

  lemma ByteOfSigns(b: byte)
    ensures ByteOf(seq(8, k requires 0 <= k < 8 => SignOf(b, k))) == b
  {
    var s := seq(8, k requires 0 <= k < 8 => SignOf(b, k));
    assert s[0] == SignOf(b, 0) && s[1] == SignOf(b, 1) && s[2] == SignOf(b, 2) && s[3] == SignOf(b, 3);
    assert s[4] == SignOf(b, 4) && s[5] == SignOf(b, 5) && s[6] == SignOf(b, 6) && s[7] == SignOf(b, 7);
  }

  /** Outputs 8j .. 8j+7 carry the bits of real-part byte j and imaginary-part byte j. */
  lemma SignsOfMapped(bytes: seq<byte>, symbolLength: nat, j: nat, imaginary: bool)
    requires symbolLength % 8 == 0 && |bytes| == symbolLength / 4 && j < symbolLength / 8
    ensures Signs(MapVector(bytes, symbolLength), j, imaginary)
         == seq(8, k requires 0 <= k < 8 => SignOf(bytes[if imaginary then symbolLength / 8 + j else j], k))
  {
    var v := MapVector(bytes, symbolLength);
    var b := bytes[if imaginary then symbolLength / 8 + j else j];
    forall k | 0 <= k < 8
      ensures Signs(v, j, imaginary)[k] == SignOf(b, k)
    {
      assert (8 * j + k) / 8 == j && (8 * j + k) % 8 == k;
    }
  }

  /** Byte j of a de-mapped half is the input byte whose bits its signs carry. */
  lemma DemappedByte(bytes: seq<byte>, symbolLength: nat, j: nat, imaginary: bool)
    requires symbolLength % 8 == 0 && |bytes| == symbolLength / 4 && j < symbolLength / 8
    ensures DemapHalf(MapVector(bytes, symbolLength), imaginary)[j]
         == bytes[if imaginary then symbolLength / 8 + j else j]
  {
    var b := bytes[if imaginary then symbolLength / 8 + j else j];
    SignsOfMapped(bytes, symbolLength, j, imaginary);
    ByteOfSigns(b);
  }

  /** Each half of the de-mapped vector is the corresponding half of the input. */
  lemma DemapHalfOfMapped(bytes: seq<byte>, symbolLength: nat, imaginary: bool)
    requires symbolLength % 8 == 0 && |bytes| == symbolLength / 4
    ensures DemapHalf(MapVector(bytes, symbolLength), imaginary)
         == if imaginary then bytes[symbolLength / 8..] else bytes[..symbolLength / 8]
  {
    var n := symbolLength / 8;
    var half := DemapHalf(MapVector(bytes, symbolLength), imaginary);
    var expected := if imaginary then bytes[n..] else bytes[..n];
    forall j | 0 <= j < n ensures half[j] == expected[j] {
      DemappedByte(bytes, symbolLength, j, imaginary);
    }
  }

  /**
   * De-mapping the signs recovers the input bytes, so the mapper is injective
   * on vectors whose symbol length is a multiple of 8.
   */
  lemma DemapInvertsMap(bytes: seq<byte>, symbolLength: nat)
    requires symbolLength % 8 == 0 && |bytes| == symbolLength / 4
    ensures Demap(MapVector(bytes, symbolLength)) == bytes
  {
    var n := symbolLength / 8;
    DemapHalfOfMapped(bytes, symbolLength, false);
    DemapHalfOfMapped(bytes, symbolLength, true);
    assert bytes == bytes[..n] + bytes[n..];
  }

  lemma MapperIsInjective(a: seq<byte>, b: seq<byte>, symbolLength: nat)
    requires symbolLength % 8 == 0 && |a| == symbolLength / 4 && |b| == symbolLength / 4
    requires MapVector(a, symbolLength) == MapVector(b, symbolLength)
    ensures a == b
  {
    DemapInvertsMap(a, symbolLength);
    DemapInvertsMap(b, symbolLength);
  }

  /**
   * The block's test vectors (symbol length 8, two bytes per vector): 31 and
   * 255 give three positive then five negative real parts and all imaginary
   * parts negative; 0 and 3 give positive real parts and only the last two
   * imaginary parts negative.
   */
  lemma TestVectors()
    ensures MapVector([31, 255], 8)
         == [Symbol(Plus, Minus), Symbol(Plus, Minus), Symbol(Plus, Minus), Symbol(Minus, Minus),
             Symbol(Minus, Minus), Symbol(Minus, Minus), Symbol(Minus, Minus), Symbol(Minus, Minus)]
    ensures MapVector([0, 3], 8)
         == [Symbol(Plus, Plus), Symbol(Plus, Plus), Symbol(Plus, Plus), Symbol(Plus, Plus),
             Symbol(Plus, Plus), Symbol(Plus, Plus), Symbol(Plus, Minus), Symbol(Plus, Minus)]
  {
  }

  class QpskMapper {
    const symbolLength: nat

    constructor (symbolLength: nat)
      ensures this.symbolLength == symbolLength
    {
      this.symbolLength := symbolLength;
    }

    /**
     * work: row i of out (one output item of symbolLength samples) receives
     * the mapping of input item i; positions past the last whole byte are not
     * written. Returns noutput.
     */
    method Work(input: seq<seq<byte>>, noutput: nat, out: array2<Symbol>) returns (produced: nat)
      requires noutput <= |input| && noutput <= out.Length0 && out.Length1 == symbolLength
      requires forall i :: 0 <= i < |input| ==> |input[i]| == symbolLength / 4
      modifies out
      ensures produced == noutput
      ensures forall i, p :: 0 <= i < noutput && 0 <= p < Written(symbolLength) ==>
        out[i, p] == MappedAt(input[i], symbolLength, p)
      ensures forall i, p :: (0 <= i < out.Length0 && 0 <= p < out.Length1
        && (noutput <= i || Written(symbolLength) <= p)) ==> out[i, p] == old(out[i, p])
    {
      var i := 0;
      while i < noutput
        invariant 0 <= i <= noutput
        invariant forall i', p :: 0 <= i' < i && 0 <= p < Written(symbolLength) ==>
          out[i', p] == MappedAt(input[i'], symbolLength, p)
        invariant forall i', p :: (0 <= i' < out.Length0 && 0 <= p < out.Length1
          && (i <= i' || Written(symbolLength) <= p)) ==> out[i', p] == old(out[i', p])
      {
        MapRow(input[i], i, out);
        i := i + 1;
      }
      return noutput;
    }

    /** The two inner loops of work: row i receives the mapping of one input vector. */
    method MapRow(bytes: seq<byte>, i: nat, out: array2<Symbol>)
      requires i < out.Length0 && out.Length1 == symbolLength && |bytes| == symbolLength / 4
      modifies out
      ensures forall p :: 0 <= p < Written(symbolLength) ==> out[i, p] == MappedAt(bytes, symbolLength, p)
      ensures forall i', p :: (0 <= i' < out.Length0 && 0 <= p < out.Length1
        && (i' != i || Written(symbolLength) <= p)) ==> out[i', p] == old(out[i', p])
    {
      var j := 0;
      while j < symbolLength / 8
        invariant 0 <= j <= symbolLength / 8
        invariant forall p :: 0 <= p < 8 * j ==> out[i, p] == MappedAt(bytes, symbolLength, p)
        invariant forall i', p :: (0 <= i' < out.Length0 && 0 <= p < out.Length1
          && (i' != i || 8 * j <= p)) ==> out[i', p] == old(out[i', p])
      {
        var k := 0;
        while k < 8
          invariant 0 <= k <= 8
          invariant forall p :: 0 <= p < 8 * j + k ==> out[i, p] == MappedAt(bytes, symbolLength, p)
          invariant forall i', p :: (0 <= i' < out.Length0 && 0 <= p < out.Length1
            && (i' != i || 8 * j + k <= p)) ==> out[i', p] == old(out[i', p])
        {
          out[i, j * 8 + k] := Symbol(SignOf(bytes[j], k), SignOf(bytes[symbolLength / 8 + j], k));
          assert (j * 8 + k) / 8 == j && (j * 8 + k) % 8 == k;
          k := k + 1;
        }
        j := j + 1;
      }
    }
  }
}
