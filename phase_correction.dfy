/**
 * The phase correction block: the first symbol after each "Start" tag is the
 * phase reference symbol. Its num_carriers samples are swallowed while the
 * phase differences to the ideal phase reference are summed; the sum is then
 * averaged once, and every later sample is emitted, rotated by the fixed
 * factor exp(j pi/4).
 *
 * The ideal phase of pilot k is looked up in two tables that hold the mode I
 * columns of the phase reference tables of ETSI EN 300 401 clause 14.3.2.
 */
module PhaseCorrection {
  import opened Signal
  import DabParameters

  type Quarter = DabParameters.Quarter

  /** d_lookup_n: the n column of the mode I table, one entry per block of 32 pilots. */
  const LookupN: seq<Quarter> :=
    [1, 2, 0, 1, 3, 2, 2, 3] + [2, 1, 2, 3, 1, 2, 3, 3] + [2, 2, 2, 1, 1, 3, 1, 2]
    + [3, 1, 1, 1, 2, 2, 1, 0] + [2, 2, 3, 3, 0, 2, 1, 3] + [3, 3, 3, 0, 3, 0, 1, 1]

  /** d_lookup_h: the four rows h_{i,j} of Table 43, each 32 entries long. */
  const LookupH: seq<seq<Quarter>> := [
    [0, 2, 0, 0, 0, 0, 1, 1, 2, 0, 0, 0, 2, 2, 1, 1, 0, 2, 0, 0, 0, 0, 1, 1, 2, 0, 0, 0, 2, 2, 1, 1],
    [0, 3, 2, 3, 0, 1, 3, 0, 2, 1, 2, 3, 2, 3, 3, 0, 0, 3, 2, 3, 0, 1, 3, 0, 2, 1, 2, 3, 2, 3, 3, 0],
    [0, 0, 0, 2, 0, 2, 1, 3, 2, 2, 0, 2, 2, 0, 1, 3, 0, 0, 0, 2, 0, 2, 1, 3, 2, 2, 0, 2, 2, 0, 1, 3],
    [0, 1, 2, 1, 0, 3, 3, 2, 2, 3, 2, 1, 2, 1, 3, 2, 0, 1, 2, 1, 0, 3, 3, 2, 2, 3, 2, 1, 2, 1, 3, 2]]

  /** The block's tables are the mode I n column and Table 43 of the parameter module. */
  lemma LookupTablesMatchParameters()
    ensures LookupN == DabParameters.PrnNColumns[0]
    ensures |LookupH| == |DabParameters.PrnH| == 4
    ensures forall i :: 0 <= i < 4 ==> LookupH[i] == DabParameters.PrnH[i]
  {
    assert LookupH[0] == DabParameters.PrnH0 + DabParameters.PrnH0;
    assert LookupH[1] == DabParameters.PrnH1 + DabParameters.PrnH1;
    assert LookupH[2] == DabParameters.PrnH2 + DabParameters.PrnH2;
    assert LookupH[3] == DabParameters.PrnH3 + DabParameters.PrnH3;
  }

  // ---------------------------------------------------------------------
  // calc_phase_diff: index arithmetic

  /** C++ int division truncates toward zero. */
  function CDiv(a: int, b: int): int
    requires b > 0
  {
    if a >= 0 then a / b else -((-a) / b)
  }

  /** C++ int remainder: the sign of the dividend. */
  function CRem(a: int, b: int): int
    requires b > 0
  {
    a - b * CDiv(a, b)
  }

  /** Assignment to a uint8_t keeps the value modulo 256. */
  function ToUint8(x: int): int
  {
    x % 256
  }

  /** The three indices calc_phase_diff computes: block_position, the block (k - block_position)/32, and i. */
  datatype LookupIndex = LookupIndex(blockPosition: int, block: int, row: int)

  function IndicesOf(k: int): LookupIndex
  {
    var blockPosition := ToUint8(CRem(k, 32));
    var block := CDiv(k - blockPosition, 32);
    LookupIndex(blockPosition, block, ToUint8(CRem(block, 4)))
  }

  /** Both table reads of calc_phase_diff stay inside the tables. */
  predicate InBounds(k: int)
  {
    var x := IndicesOf(k);
    0 <= x.block < |LookupN| && 0 <= x.row < |LookupH| && 0 <= x.blockPosition < 32
  }

  /**
   * The lookups are in bounds exactly for 0 <= k < 1536, and there the
   * indices are k % 32, k / 32 and (k / 32) % 4: the row i cycles with the
   * block number on both sides of the DC carrier.
   */
  lemma LookupInBounds(k: int)
    ensures InBounds(k) <==> 0 <= k < 1536
    ensures 0 <= k ==> IndicesOf(k) == LookupIndex(k % 32, k / 32, (k / 32) % 4)
  {
    if k < 0 {
      NegativePilotOutOfBounds(k);
    } else {
      NonNegativePilotIndices(k);
    }
  }

  lemma NonNegativePilotIndices(k: int)
    requires 0 <= k
    ensures IndicesOf(k) == LookupIndex(k % 32, k / 32, (k / 32) % 4)
  {
    var q, r := k / 32, k % 32;
    assert CRem(k, 32) == r;
    assert ToUint8(r) == r;
    assert k - r == 32 * q;
    assert CDiv(k - r, 32) == q;
    assert CRem(q, 4) == q % 4;
    assert ToUint8(q % 4) == q % 4;
  }

  lemma NegativePilotOutOfBounds(k: int)
    requires k < 0
    ensures IndicesOf(k).block < 0 || IndicesOf(k).blockPosition >= 32
  {
    var m := -k;
    var q, r := m / 32, m % 32;
    assert m == 32 * q + r;
    assert CDiv(k, 32) == -q;
    assert CRem(k, 32) == -r;
    if r == 0 {
      assert ToUint8(0) == 0;
      assert q > 0;
      assert IndicesOf(k).block == CDiv(k, 32);
    } else {
      assert ToUint8(-r) == 256 - r;
    }
  }

  /** h + n for pilot k read from row `row` of d_lookup_h: both entries are quarter turns, so the sum is at most 6. */
  function TurnsAt(row: int, k: int): (q: int)
    requires 0 <= row < 4 && 0 <= k < 1536
    ensures 0 <= q <= 6
  {
    var h: int := LookupH[row][k % 32];
    var n: int := LookupN[k / 32];
    h + n
  }

  /**
   * h + n, the ideal phase of pilot k in quarter turns, read at block
   * position k % 32 of row (k / 32) % 4 and at block k / 32.
   */
  function QuarterTurns(k: int): int
    requires 0 <= k < 1536
  {
    TurnsAt((k / 32) % 4, k)
  }

  /** QuarterTurns reads the tables at exactly the indices calc_phase_diff computes for pilot k. */
  lemma QuarterTurnsAtIndices(k: int)
    requires 0 <= k < 1536
    ensures var x := IndicesOf(k);
      InBounds(k) && QuarterTurns(k) == LookupH[x.row][x.blockPosition] as int + LookupN[x.block] as int
  {
    LookupInBounds(k);
  }

  /**
   * calc_phase_diff: the ideal phase (pi/2)(h + n) minus the sample's
   * argument, wrapped into one turn. The float functions are parameters.
   * The row i is the one the block computes, (k / 32) % 4; where it departs
   * from the standard's (TableQuarterTurns), see AsWrittenLookupDiffers.
   */
  function PhaseDiff(fm: FloatMath, sample: Complex, k: int): real
    requires 0 <= k < 1536
  {
    fm.wrapPhase(fm.pi / 2.0 * QuarterTurns(k) as real - fm.arg(sample))
  }

  // ---------------------------------------------------------------------
  // The row index of the lookup against the standard's table

  /** The row i of block b of the mode I table: 0,1,2,3 below the DC carrier, 0,3,2,1 above. */
  function StandardRow(b: int): DabParameters.Quarter
    requires 0 <= b < 48
  {
    if b < 24 then b % 4 else (4 - b % 4) % 4
  }

  /** Column i of the mode I table as the standard gives it: 0,1,2,3 below the DC carrier, 0,3,2,1 above. */
  lemma StandardRowPattern(b: nat)
    requires b < 48
    ensures DabParameters.PrnIColumns[0][b] == StandardRow(b)
  {
    if b < 24 {
      RowsBelowCentre(b);
    } else {
      RowsAboveCentre(b);
    }
  }

  lemma RowsBelowCentre(b: nat)
    requires b < 24
    ensures DabParameters.PrnIColumns[0][b] == b % 4
  {
    if b < 8 {
    } else if b < 16 {
    } else {
    }
  }

  lemma RowsAboveCentre(b: nat)
    requires 24 <= b < 48
    ensures DabParameters.PrnIColumns[0][b] == (4 - b % 4) % 4
  {
    if b < 32 {
    } else if b < 40 {
    } else {
    }
  }

  /** The quarter turns of pilot k with the row i that the standard's table assigns to block k / 32. */
  function TableQuarterTurns(k: int): int
    requires 0 <= k < 1536
  {
    TurnsAt(StandardRow(k / 32), k)
  }

  /**
   * Pilot k of the phase reference symbol belongs to carrier
   * CarrierOf(1, k); with the standard's row, the looked-up phase is that
   * carrier's phase reference.
   */
  lemma TableLookupMatchesPhaseReference(k: int)
    requires 0 <= k < 1536
    ensures TableQuarterTurns(k) % 4 == DabParameters.PrnPhase(1, DabParameters.CarrierOf(1, k))
  {
    PilotPhase(1, k);
  }

  /** The same, for a mode given as a parameter (mode I), so that the tables are read at a symbolic mode. */
  lemma PilotPhase(mode: DabParameters.Mode, k: int)
    requires mode == 1 && 0 <= k < 1536
    ensures TableQuarterTurns(k) % 4 == DabParameters.PrnPhase(mode, DabParameters.CarrierOf(mode, k))
  {
    var row, n := StandardRow(k / 32), DabParameters.PrnNColumns[0][k / 32];
    StandardRowPattern(k / 32);
    DabParameters.PilotPhaseOfRow(mode, k, row, n);
    TableTurns(k);
    var turns := DabParameters.PrnH[row][k % 32] as int + n as int;
    assert TableQuarterTurns(k) == turns;
    assert DabParameters.PrnPhase(mode, DabParameters.CarrierOf(mode, k)) == turns % 4;
  }

  /** The lookup with the standard's row reads Table 43 and the n column of the parameter module. */
  lemma TableTurns(k: int)
    requires 0 <= k < 1536
    ensures TableQuarterTurns(k)
         == DabParameters.PrnH[StandardRow(k / 32)][k % 32] as int + DabParameters.PrnNColumns[0][k / 32] as int
  {
    var row := StandardRow(k / 32);
    LookupTablesMatchParameters();
    assert LookupH[row] == DabParameters.PrnH[row];
  }

  /** The block's row i = (k / 32) % 4 agrees with the standard's below the DC carrier and on even blocks. */
  lemma AsWrittenAgreesWithTable(k: int)
    requires 0 <= k < 1536 && (k / 32 < 24 || (k / 32) % 2 == 0)
    ensures InBounds(k) && QuarterTurns(k) == TableQuarterTurns(k)
  {
    LookupInBounds(k);
    assert (k / 32) % 4 == StandardRow(k / 32);
  }

  /**
   * Above the DC carrier the block's row differs from the standard's on odd
   * blocks: pilot 800 (block 25) reads row 1 where the table has row 3, and
   * pilot 801 then gets phase 0 where the phase reference is 2.
   */
  lemma AsWrittenLookupDiffers()
    ensures InBounds(801) && IndicesOf(801).row == 1 && DabParameters.PrnIColumns[0][801 / 32] == 3
    ensures QuarterTurns(801) % 4 == 0
    ensures DabParameters.PrnPhase(1, DabParameters.CarrierOf(1, 801)) == 2
  {
    LookupInBounds(801);
    TableLookupMatchesPhaseReference(801);
  }

  // ---------------------------------------------------------------------
  // general_work: tags, pilot counting, output

  /** d_pilot_counter and d_phase_difference. */
  datatype PilotState = PilotState(counter: nat, diff: real)

  /**
   * One call of general_work: the float functions, the phase difference of
   * a sample as pilot k, num_carriers, the input items, the tag offsets and
   * the state before the call.
   */
  datatype Call = Call(
    fm: FloatMath,
    pilotDiff: (Complex, nat) -> real,
    numCarriers: nat,
    input: seq<Complex>,
    tags: seq<nat>,
    start: PilotState)

  /** The block's pilot phase difference: calc_phase_diff for the 1536 pilots its tables cover. */
  function BlockPilotDiff(fm: FloatMath): (Complex, nat) -> real
  {
    (x: Complex, k: nat) => if k < 1536 then PhaseDiff(fm, x, k) else 0.0
  }

  /** The averaging divides by num_carriers, and the pilot lookups stay in bounds below 1536. */
  predicate WellFormed(c: Call)
  {
    0 < c.numCarriers <= 1536
  }

  /** One item's effect on the state, once a tag on it has been applied. */
  function Advance(c: Call, s: PilotState, x: Complex): PilotState
    requires WellFormed(c)
  {
    if s.counter < c.numCarriers then
      PilotState(s.counter + 1, s.diff + c.pilotDiff(x, s.counter))
    else if s.counter == c.numCarriers then
      PilotState(s.counter + 1, s.diff / c.numCarriers as real)
    else s
  }

  /** The state item j meets: zeroed when a tag sits on it, otherwise the state after item j - 1. */
  function Entering(c: Call, j: nat): PilotState
    requires WellFormed(c) && j < |c.input|
    decreases j + 1, 0
  {
    if HitAt(c.tags, j) then PilotState(0, 0.0) else StateAfter(c, j)
  }

  /** The state after the first n items. */
  function StateAfter(c: Call, n: nat): PilotState
    requires WellFormed(c) && n <= |c.input|
    decreases n, 1
  {
    if n == 0 then c.start else Advance(c, Entering(c, n - 1), c.input[n - 1])
  }

  /** An item is emitted when the counter it meets has reached num_carriers. */
  predicate Emits(c: Call, j: nat)
    requires WellFormed(c) && j < |c.input|
  {
    Entering(c, j).counter >= c.numCarriers
  }

  /** The fixed correction factor gr_expj(pi/4). */
  function Rotation(fm: FloatMath): Complex
  {
    fm.expj(fm.pi / 4.0)
  }

  /** The indices of the emitted items among the first n. */
  function Emitted(c: Call, n: nat): seq<nat>
    requires WellFormed(c) && n <= |c.input|
  {
    if n == 0 then []
    else Emitted(c, n - 1) + if Emits(c, n - 1) then [n - 1] else []
  }

  /** What general_work writes for the first n items. */
  function Output(c: Call, n: nat): (r: seq<Complex>)
    requires WellFormed(c) && n <= |c.input|
    ensures |r| <= n
  {
    if n == 0 then []
    else Output(c, n - 1) + if Emits(c, n - 1) then [Mul(c.input[n - 1], Rotation(c.fm))] else []
  }

  /**
   * The emitted items are exactly the items that meet a counter of at
   * least num_carriers, in input order; output k is emitted item k times
   * the fixed rotation.
   */
  lemma {:induction false} OutputIsRotatedSelection(c: Call, n: nat)
    requires WellFormed(c) && n <= |c.input|
    ensures |Output(c, n)| == |Emitted(c, n)| <= n
    ensures forall j :: 0 <= j < n ==> (j in Emitted(c, n) <==> Emits(c, j))
    ensures forall a, b :: 0 <= a < b < |Emitted(c, n)| ==> Emitted(c, n)[a] < Emitted(c, n)[b]
    ensures forall k :: 0 <= k < |Emitted(c, n)| ==>
      Emitted(c, n)[k] < n && Output(c, n)[k] == Mul(c.input[Emitted(c, n)[k]], Rotation(c.fm))
  {
    if n > 0 {
      OutputIsRotatedSelection(c, n - 1);
    }
  }

  /** The sum of the phase differences of the pilots i .. n-1 that follow a tag at item i. */
  function PilotSum(c: Call, i: nat, n: nat): real
    requires WellFormed(c) && i <= n <= |c.input| && n - i <= c.numCarriers
  {
    if n == i then 0.0
    else PilotSum(c, i, n - 1) + c.pilotDiff(c.input[n - 1], n - 1 - i)
  }

  /** No tag sits on the items strictly between i and n. */
  predicate NoHitsBetween(tags: seq<nat>, i: nat, n: nat)
  {
    forall j :: i < j < n ==> !HitAt(tags, j)
  }

  /**
   * After a tag at item i, the state after the items i .. n-1 (at most
   * num_carriers of them) holds their count and the sum of their phase
   * differences.
   */
  lemma {:induction false} PilotsCounted(c: Call, i: nat, n: nat)
    requires WellFormed(c) && HitAt(c.tags, i) && i < n <= |c.input| && n - i <= c.numCarriers
    requires NoHitsBetween(c.tags, i, n)
    ensures StateAfter(c, n) == PilotState(n - i, PilotSum(c, i, n))
  {
    var e := Entering(c, n - 1);
    if n - 1 == i {
      assert e == PilotState(0, 0.0);
    } else {
      PilotsCounted(c, i, n - 1);
      assert e == StateAfter(c, n - 1);
    }
  }

  /**
   * After a tag at item i, the items i .. n-1 (at most num_carriers of them)
   * meet the counters 0 .. n-1-i, so none of them is emitted.
   */
  lemma PhaseReferenceSwallowed(c: Call, i: nat, n: nat)
    requires WellFormed(c) && HitAt(c.tags, i) && i <= n <= |c.input| && n - i <= c.numCarriers
    requires NoHitsBetween(c.tags, i, n)
    ensures forall j :: i <= j < n ==> Entering(c, j).counter == j - i && !Emits(c, j)
  {
    forall j | i <= j < n
      ensures Entering(c, j).counter == j - i
    {
      if j > i {
        PilotsCounted(c, i, j);
        assert Entering(c, j) == StateAfter(c, j);
      }
    }
  }

  /**
   * The item num_carriers after a tag (with no tag in between) performs the
   * single averaging step and is itself emitted.
   */
  lemma AveragingStep(c: Call, i: nat)
    requires WellFormed(c) && HitAt(c.tags, i) && i + c.numCarriers < |c.input|
    requires NoHitsBetween(c.tags, i, i + c.numCarriers + 1)
    ensures Entering(c, i + c.numCarriers).counter == c.numCarriers && Emits(c, i + c.numCarriers)
    ensures StateAfter(c, i + c.numCarriers + 1)
         == PilotState(c.numCarriers + 1, PilotSum(c, i, i + c.numCarriers) / c.numCarriers as real)
  {
    var a := i + c.numCarriers;
    PilotsCounted(c, i, a);
    assert Entering(c, a) == StateAfter(c, a);
  }

  /**
   * Once item j is emitted, every following item up to the next tag is
   * emitted too, and none of them changes the state.
   */
  lemma {:induction false} EmittedUntilNextTag(c: Call, j: nat, n: nat)
    requires WellFormed(c) && j < n <= |c.input| && Emits(c, j)
    requires NoHitsBetween(c.tags, j, n)
    ensures Emits(c, n - 1)
    ensures StateAfter(c, j + 1).counter > c.numCarriers
    ensures StateAfter(c, n) == StateAfter(c, j + 1)
  {
    if n - 1 > j {
      EmittedUntilNextTag(c, j, n - 1);
      assert Entering(c, n - 1) == StateAfter(c, n - 1);
    }
  }

  class PhaseCorrection {
    const numCarriers: int
    var pilotCounter: nat
    var phaseDifference: real

    /**
     * The constructor sets num_carriers only; the pilot counter and the phase
     * difference start with whatever values `unsetCounter` and
     * `unsetDifference` stand for.
     */
    constructor (numCarriers: int, unsetCounter: nat, unsetDifference: real)
      ensures this.numCarriers == numCarriers
      ensures pilotCounter == unsetCounter && phaseDifference == unsetDifference
    {
      this.numCarriers := numCarriers;
      pilotCounter, phaseDifference := unsetCounter, unsetDifference;
    }

    /** forecast: one input item per output item. */
    function Forecast(noutput: nat): nat { noutput }

    /**
     * general_work over noutput items with the given tag offsets (relative
     * to the first item): the new counter and phase difference are those of
     * the specification, out starts with the rotated emitted items, and the
     * number of them is returned.
     */
    method GeneralWork(fm: FloatMath, input: seq<Complex>, tags: seq<nat>, noutput: nat, out: array<Complex>)
      returns (produced: nat)
      requires 0 < numCarriers <= 1536
      requires |input| >= Forecast(noutput) && out.Length >= noutput
      modifies this`pilotCounter, this`phaseDifference, out
      ensures var c := Call(fm, BlockPilotDiff(fm), numCarriers, input[..noutput], tags,
                            old(PilotState(pilotCounter, phaseDifference)));
        EmittedInto(c, noutput, out, produced)
      ensures forall j :: produced <= j < out.Length ==> out[j] == old(out[j])
    {
      var c := Call(fm, BlockPilotDiff(fm), numCarriers, input[..noutput], tags, PilotState(pilotCounter, phaseDifference));
      var offset: nat := 0;
      var tagCount := 0;
      var i := 0;
      while i < noutput
        invariant 0 <= i <= noutput
        invariant tagCount == TagCursor(tags, i)
        invariant EmittedInto(c, i, out, offset)
        invariant forall j :: offset <= j < out.Length ==> out[j] == old(out[j])
      {
        tagCount, offset := ProcessItem(c, i, tagCount, offset, out);
        i := i + 1;
      }
      produced := offset;
    }

    /** After the first i items of call c: the block's pilot state, and the samples written to out. */
    ghost predicate EmittedInto(c: Call, i: nat, out: array<Complex>, offset: nat)
      requires WellFormed(c) && i <= |c.input|
      reads this, out
    {
      PilotState(pilotCounter, phaseDifference) == StateAfter(c, i)
      && offset == |Output(c, i)| <= out.Length && out[..offset] == Output(c, i)
    }

    /** One iteration of the loop of general_work: item i, with tag_count and offset. */
    method ProcessItem(c: Call, i: nat, tagCount: nat, offset: nat, out: array<Complex>)
      returns (tagCount': nat, offset': nat)
      requires WellFormed(c) && c.numCarriers == numCarriers && c.pilotDiff == BlockPilotDiff(c.fm)
      requires i < |c.input| && |c.input| <= out.Length
      requires tagCount == TagCursor(c.tags, i)
      requires EmittedInto(c, i, out, offset)
      modifies this`pilotCounter, this`phaseDifference, out
      ensures tagCount' == TagCursor(c.tags, i + 1)
      ensures EmittedInto(c, i + 1, out, offset')
      ensures forall j :: offset' <= j < out.Length ==> out[j] == old(out[j])
    {
      tagCount' := tagCount;
      if tagCount < |c.tags| && c.tags[tagCount] == i {
        pilotCounter := 0;
        phaseDifference := 0.0;
        tagCount' := tagCount + 1;
      }
      assert PilotState(pilotCounter, phaseDifference) == Entering(c, i);
      offset' := offset;
      if pilotCounter < numCarriers {
        phaseDifference := phaseDifference + PhaseDiff(c.fm, c.input[i], pilotCounter);
        pilotCounter := pilotCounter + 1;
      } else {
        if pilotCounter == numCarriers {
          phaseDifference := phaseDifference / numCarriers as real;
          pilotCounter := pilotCounter + 1;
        }
        out[offset] := Mul(c.input[i], Rotation(c.fm));
        offset' := offset + 1;
        assert out[..offset'] == out[..offset] + [out[offset]];
      }
    }
  }
}
