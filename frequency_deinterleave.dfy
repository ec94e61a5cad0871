/**
 * The frequency deinterleaver block: it is built from an interleaving table
 * of shorts and scatters each input sample i to output slot table[i].
 */
module FrequencyDeinterleave {
  import opened Signal
  import opened Sequences

  /** A C++ short. */
  type short = x: int | -0x8000 <= x < 0x8000

  const U32: int := 0x1_0000_0000

  /**
   * The usual arithmetic conversion of a short to unsigned int before it is
   * compared with the unsigned table length: negative values wrap around.
   */
  function AsUnsigned(x: short): (r: nat)
    ensures r < U32
    ensures 0 <= x ==> r == x
    ensures x < 0 ==> r >= U32 - 0x8000
  {
    if x < 0 then x + U32 else x
  }

  /** The constructor's test: the entry is below the length as unsigned values. */
  predicate EntryAccepted(x: short, length: nat)
  {
    AsUnsigned(x) < length
  }

  /**
   * The constructor's validation loop: false exactly when it would throw
   * std::invalid_argument.
   */
  method Validate(table: seq<short>) returns (ok: bool)
    requires |table| < U32
    ensures ok <==> forall i :: 0 <= i < |table| ==> EntryAccepted(table[i], |table|)
  {
    var i := 0;
    while i < |table|
      invariant 0 <= i <= |table|
      invariant forall j :: 0 <= j < i ==> EntryAccepted(table[j], |table|)
    {
      if AsUnsigned(table[i]) >= |table| {
        return false;
      }
      i := i + 1;
    }
    return true;
  }

  /**
   * The unsigned comparison accepts a table exactly when all entries lie in
   * [0, length): negative entries wrap to at least 2^32 - 2^15 and are refused
   * for every table shorter than that.
   */
  lemma AcceptedMeansInRange(table: seq<short>)
    requires |table| <= U32 - 0x8000
    ensures (forall i :: 0 <= i < |table| ==> EntryAccepted(table[i], |table|))
        <==> InRange(table, |table|)
  {
    if forall i :: 0 <= i < |table| ==> EntryAccepted(table[i], |table|) {
      forall i | 0 <= i < |table| ensures 0 <= table[i] < |table| {
        assert EntryAccepted(table[i], |table|);
      }
    }
  }

  /** The output after the scatter of the first n inputs over `old`; later writes win. */
  function Scattered(prior: seq<Complex>, table: seq<int>, input: seq<Complex>, n: nat): (r: seq<Complex>)
    requires n <= |table| && n <= |input|
    requires InRange(table, |prior|)
    ensures |r| == |prior|
  {
    if n == 0 then prior else Scattered(prior, table, input, n - 1)[table[n - 1] := input[n - 1]]
  }

  /**
   * With distinct table entries each written slot holds its own input, and a
   * slot no entry names keeps its old value.
   */
  lemma {:induction false} ScatteredSlots(prior: seq<Complex>, table: seq<int>, input: seq<Complex>, n: nat)
    requires n <= |table| && n <= |input|
    requires InRange(table, |prior|) && Distinct(table)
    ensures forall i :: 0 <= i < n ==> Scattered(prior, table, input, n)[table[i]] == input[i]
    ensures forall p :: 0 <= p < |prior| && p !in table[..n] ==> Scattered(prior, table, input, n)[p] == prior[p]
  {
    if n > 0 {
      ScatteredSlots(prior, table, input, n - 1);
      assert table[..n] == table[..n - 1] + [table[n - 1]];
    }
  }

  /**
   * When the table is a permutation of 0..length-1 and a whole symbol is
   * processed, the output is the input reordered by the inverse permutation:
   * every slot is written, slot p with input[Inverse(table)[p]].
   */
  lemma DeinterleaveIsInversePermutation(prior: seq<Complex>, table: seq<int>, input: seq<Complex>)
    requires IsPermutation(table, |prior|) && |input| == |prior|
    ensures forall p :: 0 <= p < |prior| ==>
      Scattered(prior, table, input, |prior|)[p] == input[Inverse(table, |prior|)[p]]
  {
    var n := |prior|;
    ScatteredSlots(prior, table, input, n);
    InverseIsInverse(table, n);
    forall p | 0 <= p < n
      ensures Scattered(prior, table, input, n)[p] == input[Inverse(table, n)[p]]
    {
      var j := Inverse(table, n)[p];
      assert table[j] == p;
    }
  }

  /** work reads the table at every index below noutput: an index at or past its length is a read past it. */
  datatype WorkError = ReadsPastTable(index: nat)

  class FrequencyDeinterleave {
    const table: seq<short>
    /** False when the constructor's check throws std::invalid_argument: such a block is never built. */
    const accepted: bool

    /**
     * The constructor keeps the table and runs the check loop over it; an
     * entry that is not below the length, compared as unsigned values, is
     * where the source throws.
     */
    constructor (interleavingSequence: seq<short>)
      requires |interleavingSequence| < U32
      ensures table == interleavingSequence
      ensures accepted <==> forall i :: 0 <= i < |table| ==> EntryAccepted(table[i], |table|)
    {
      var ok := Validate(interleavingSequence);
      table := interleavingSequence;
      accepted := ok;
    }

    /** The output multiple: one whole symbol of table-length samples. */
    function OutputMultiple(): nat reads this { |table| }

    /**
     * work: out[table[i]] := input[i] for i < noutput. The table is read at
     * index i, but the output multiple lets noutput be any multiple of the
     * length; from i = length on the loop reads past the table, which is
     * undefined in the source and ends the call here with ReadsPastTable,
     * once the first symbol has been scattered.
     */
    method Work(input: seq<Complex>, noutput: nat, out: array<Complex>) returns (error: Option<WorkError>, produced: nat)
      requires accepted && noutput <= |input|
      requires |table| <= out.Length
      requires InRange(table, |table|)
      modifies out
      ensures error.None? <==> noutput <= |table|
      ensures error.None? ==> produced == noutput
      ensures error.Some? ==> error.value == ReadsPastTable(|table|) && produced == 0
      ensures out[..] == Scattered(old(out[..]), table, input, if noutput <= |table| then noutput else |table|)
    {
      var i := 0;
      while i < noutput
        invariant 0 <= i <= noutput && i <= |table|
        invariant out[..] == Scattered(old(out[..]), table, input, i)
      {
        if i == |table| {
          return Some(ReadsPastTable(i)), 0;
        }
        out[table[i]] := input[i];
        i := i + 1;
      }
      return None, noutput;
    }
  }
}
