/**
 * The capacity-unit selector: of a stream of capacity-unit vectors it keeps
 * those whose position within the logical frame lies in [address, address+size).
 */
module SelectCus {
  const U32: int := 0x1_0000_0000

  /** A C++ unsigned int. */
  type uint32 = x: int | 0 <= x < 0x1_0000_0000

  /** The window test of general_work, with the unsigned sum address+size wrapping at 2^32. */
  predicate InWindow(position: nat, frameLen: uint32, address: uint32, size: uint32)
    requires frameLen > 0
  {
    address <= position % frameLen < (address + size) % U32
  }

  /** The input items (relative to the call) that the block copies, in input order. */
  function Selection(nitemsRead: nat, n: nat, frameLen: uint32, address: uint32, size: uint32): (r: seq<nat>)
    requires frameLen > 0
    ensures |r| <= n
    ensures forall k :: 0 <= k < |r| ==> r[k] < n
  {
    if n == 0 then []
    else
      var prefix := Selection(nitemsRead, n - 1, frameLen, address, size);
      if InWindow(nitemsRead + n - 1, frameLen, address, size) then prefix + [n - 1] else prefix
  }

  /**
   * An item is selected exactly when its absolute position falls in the
   * window, and the selection keeps input order.
   */
  lemma {:induction false} SelectionMembers(nitemsRead: nat, n: nat, frameLen: uint32, address: uint32, size: uint32)
    requires frameLen > 0
    ensures forall i :: 0 <= i < n ==>
      (i in Selection(nitemsRead, n, frameLen, address, size) <==> InWindow(nitemsRead + i, frameLen, address, size))
    ensures forall a, b :: 0 <= a < b < |Selection(nitemsRead, n, frameLen, address, size)| ==>
      Selection(nitemsRead, n, frameLen, address, size)[a] < Selection(nitemsRead, n, frameLen, address, size)[b]
  {
    if n > 0 {
      SelectionMembers(nitemsRead, n - 1, frameLen, address, size);
    }
  }

  /**
   * The selected items of a frame-aligned stretch of n <= frameLen items:
   * those positions of [0, n) that fall in [address, address+size).
   */
  lemma {:induction false} SelectionCountInFrame(base: nat, n: nat, frameLen: uint32, address: uint32, size: uint32)
    requires 0 < frameLen && base % frameLen == 0 && n <= frameLen && address + size <= frameLen
    ensures |Selection(base, n, frameLen, address, size)|
         == if n <= address then 0 else if n <= address + size then n - address else size
  {
    if n > 0 {
      SelectionCountInFrame(base, n - 1, frameLen, address, size);
      AlignedOffset(base, frameLen, n - 1);
      assert InWindow(base + n - 1, frameLen, address, size) <==> address <= n - 1 < address + size;
    }
  }

  /** An offset from a frame boundary is the position within the frame. */
  lemma AlignedOffset(base: nat, frameLen: nat, offset: nat)
    requires 0 < frameLen && base % frameLen == 0 && offset < frameLen
    ensures (base + offset) % frameLen == offset
  {
    var frames := base / frameLen;
    assert base == frames * frameLen;
    ModuloOfFrameOffset(frames, frameLen, offset);
  }

  lemma ModuloOfFrameOffset(frames: nat, frameLen: nat, offset: nat)
    requires 0 < frameLen && offset < frameLen
    ensures (frames * frameLen + offset) % frameLen == offset
  {
    var x := frames * frameLen + offset;
    var q, r := x / frameLen, x % frameLen;
    assert x == q * frameLen + r;
    assert (frames - q) * frameLen == r - offset;
    if frames > q {
      ProductAtLeastFactor(frames - q, frameLen);
    } else if frames < q {
      ProductAtLeastFactor(q - frames, frameLen);
    }
  }

  lemma ProductAtLeastFactor(d: int, n: int)
    requires d >= 1 && n > 0
    ensures d * n >= n
  {
  }

  /** A complete frame contributes exactly `size` vectors when the window fits in the frame. */
  lemma CompleteFrameYieldsSize(frames: nat, frameLen: uint32, address: uint32, size: uint32)
    requires 0 < frameLen && address + size <= frameLen
    ensures |Selection(frames * frameLen, frameLen, frameLen, address, size)| == size
  {
    ModuloOfFrameOffset(frames, frameLen, 0);
    SelectionCountInFrame(frames * frameLen, frameLen, frameLen, address, size);
  }

  /** The items at the given positions, in that order. */
  function Gather<T>(input: seq<T>, items: seq<nat>): (r: seq<T>)
    requires forall k :: 0 <= k < |items| ==> items[k] < |input|
    ensures |r| == |items|
    ensures forall k :: 0 <= k < |items| ==> r[k] == input[items[k]]
  {
    seq(|items|, k requires 0 <= k < |items| => input[items[k]])
  }

  /**
   * The sibling float block's test: vector length 4, frame length 2, address 0,
   * size 1 keeps the first vector of every pair of the input 1..16.
   */
  lemma KeepsFirstOfEachPair()
    ensures Selection(0, 4, 2, 0, 1) == [0, 2]
    ensures Gather([[1.0, 2.0, 3.0, 4.0], [5.0, 6.0, 7.0, 8.0], [9.0, 10.0, 11.0, 12.0], [13.0, 14.0, 15.0, 16.0]], [0, 2])
         == [[1.0, 2.0, 3.0, 4.0], [9.0, 10.0, 11.0, 12.0]]
  {
    assert InWindow(0, 2, 0, 1) && !InWindow(1, 2, 0, 1);
    assert InWindow(2, 2, 0, 1) && !InWindow(3, 2, 0, 1);
  }

  class SelectCus {
    const vlen: uint32
    const frameLen: uint32
    const address: uint32
    const size: uint32

    constructor (vlen: uint32, frameLen: uint32, address: uint32, size: uint32)
      ensures this.vlen == vlen && this.frameLen == frameLen
      ensures this.address == address && this.size == size
    {
      this.vlen, this.frameLen, this.address, this.size := vlen, frameLen, address, size;
    }

    /** forecast: one input item per output item. */
    function Forecast(noutput: nat): nat { noutput }

    /**
     * general_work: copies the selected vectors (items of vlen values), in
     * order, to the front of out; every input item is consumed and the number
     * of copied vectors is returned.
     */
    method GeneralWork(input: seq<seq<real>>, nitemsRead: nat, noutput: nat, out: array<seq<real>>)
      returns (nwritten: nat, consumed: nat)
      requires frameLen > 0
      requires |input| >= Forecast(noutput) && out.Length >= noutput
      requires forall i :: 0 <= i < |input| ==> |input[i]| == vlen
      modifies out
      ensures consumed == noutput
      ensures nwritten == |Selection(nitemsRead, noutput, frameLen, address, size)| <= noutput
      ensures out[..nwritten] == Gather(input, Selection(nitemsRead, noutput, frameLen, address, size))
      ensures out[nwritten..] == old(out[nwritten..])
    {
      nwritten := 0;
      var i := 0;
      while i < noutput
        invariant 0 <= i <= noutput
        invariant nwritten == |Selection(nitemsRead, i, frameLen, address, size)| <= i
        invariant out[..nwritten] == Gather(input, Selection(nitemsRead, i, frameLen, address, size))
        invariant out[nwritten..] == old(out[nwritten..])
      {
        if address <= (nitemsRead + i) % frameLen < (address + size) % U32 {
          out[nwritten] := input[i];
          nwritten := nwritten + 1;
        }
        i := i + 1;
      }
      consumed := noutput;
    }
  }
}
