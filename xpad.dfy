/**
 * The programme-associated data (PAD) carried in a DAB+ access unit, as
 * mp4_decode_bs reads it: handle_aac_frame finds the PAD in an AU that opens
 * with an AAC data stream element; process_pad reads the two F-PAD bytes at
 * its end, the X-PAD content indicators before them and the X-PAD data
 * sub-fields (ETSI EN 300 401, clause 7.4); process_dynamic_label_segment
 * reads the header of a dynamic-label segment (clause 7.4.5.2).
 *
 * The PAD is stored back to front: its last byte is the second F-PAD byte,
 * the content indicators run downwards from pad[length - 3], and the bytes
 * of every data sub-field are read downwards too, which puts them back in
 * their logical order.
 */
module XPad {
  import opened Signal
  import opened Mp4DecodeBs

  // ---------------------------------------------------------------------
  // handle_aac_frame: the PAD of an AU.

  /** The AAC syntactic element id of a data stream element, in the top three bits of the AU. */
  const DataStreamElement: bv8 := 4

  /** No PAD; the PAD's bytes; or a count that reaches past the copied AU and its ten zero bytes. */
  datatype PadField = NoPad | Pad(bytes: seq<byte>) | PadBeyondCopy

  /** The AU as handle_aac_frame copies it: the frame, then ten zero bytes. */
  function CopiedAu(au: seq<byte>): (v: seq<byte>)
    ensures |v| == |au| + 10 && v[..|au|] == au
  {
    au + seq(10, _ => 0 as byte)
  }

  /** The PAD of an AU: when its first element is a data stream element, au[1] bytes from au[2] on. */
  function PadOf(au: seq<byte>): PadField
  {
    var v := CopiedAu(au);
    if (v[0] >> 5) & 7 != DataStreamElement then NoPad
    else if 2 + v[1] as nat > |v| then PadBeyondCopy
    else Pad(v[2..2 + v[1] as nat])
  }

  /** An AU framed with a data stream element and its count gives its PAD back. */
  lemma PadOfFramed(element: byte, pad: seq<byte>, rest: seq<byte>)
    requires (element >> 5) & 7 == DataStreamElement && |pad| < 256
    ensures PadOf([element, |pad| as bv8] + pad + rest) == Pad(pad)
  {
    var au := [element, |pad| as bv8] + pad + rest;
    var v := CopiedAu(au);
    ByteOfSmall(|pad|);
    assert v[0] == element && v[1] == |pad| as bv8;
    assert v[2..2 + |pad|] == pad;
  }

  /** Any other first element has no PAD, and neither has an empty AU. */
  lemma PadOfOther(au: seq<byte>)
    requires |au| == 0 || (au[0] >> 5) & 7 != DataStreamElement
    ensures PadOf(au) == NoPad
  {
    if |au| == 0 {
      assert CopiedAu(au)[0] == 0;
    } else {
      assert CopiedAu(au)[0] == au[0];
    }
  }

  // ---------------------------------------------------------------------
  // The F-PAD: the two bytes at the end of the PAD.

  /** F-PAD type, X-PAD indicator and byte L indicator from byte L-1; the content indicator flag from byte L. */
  datatype FPad = FPad(fpadType: nat, xpadIndicator: nat, byteLIndicator: nat, contentIndicatorFlag: nat)

  function FPadOf(byteL1: byte, byteL: byte): FPad
  {
    FPad(((byteL1 & 0xc0) >> 6) as nat, ((byteL1 & 0x30) >> 4) as nat, (byteL1 & 0x0f) as nat,
         ((byteL & 0x02) >> 1) as nat)
  }

  predicate FPadInRange(f: FPad)
  {
    f.fpadType < 4 && f.xpadIndicator < 4 && f.byteLIndicator < 16 && f.contentIndicatorFlag < 2
  }

  /** The two F-PAD bytes a sender writes (the other bits of byte L left 0). */
  function FPadBytes(f: FPad): (r: seq<byte>)
    requires FPadInRange(f)
    ensures |r| == 2
  {
    [((f.fpadType as bv8) << 6) | ((f.xpadIndicator as bv8) << 4) | (f.byteLIndicator as bv8),
     (f.contentIndicatorFlag as bv8) << 1]
  }

  lemma FPadFieldsInRange(byteL1: byte, byteL: byte)
    ensures FPadInRange(FPadOf(byteL1, byteL))
  {
  }

  lemma UnpackFPad(t: bv8, x: bv8, l: bv8, c: bv8)
    requires t < 4 && x < 4 && l < 16 && c < 2
    ensures var b1, b := (t << 6) | (x << 4) | l, c << 1;
      (b1 & 0xc0) >> 6 == t && (b1 & 0x30) >> 4 == x && b1 & 0x0f == l && (b & 0x02) >> 1 == c
  {
  }

  /** The F-PAD a sender writes is read back unchanged. */
  lemma FPadRoundTrip(f: FPad)
    requires FPadInRange(f)
    ensures var r := FPadBytes(f); FPadOf(r[0], r[1]) == f
  {
    UnpackFPad(f.fpadType as bv8, f.xpadIndicator as bv8, f.byteLIndicator as bv8, f.contentIndicatorFlag as bv8);
    ByteOfSmall(f.fpadType);
    ByteOfSmall(f.xpadIndicator);
    ByteOfSmall(f.byteLIndicator);
    ByteOfSmall(f.contentIndicatorFlag);
  }

  // ---------------------------------------------------------------------
  // Content indicators: a three-bit length and a five-bit application type.

  /** d_length_xpad_data_subfield_table: the data sub-field length of each length indicator. */
  const SubfieldLengths: seq<nat> := [4, 6, 8, 12, 16, 24, 32, 48]

  function AppType(ci: byte): (t: nat)
    ensures t < 32
  {
    (ci & 0x1f) as nat
  }

  /** The length indicator as process_pad computes it: (ci & 0xe0) >> 6. */
  function LengthIndicatorAsWritten(ci: byte): (ind: nat)
    ensures ind < 4
  {
    ((ci & 0xe0) >> 6) as nat
  }

  /** The length indicator of the standard: bits 7 to 5 of the content indicator. */
  function LengthIndicator(ci: byte): (ind: nat)
    ensures ind < 8
  {
    ((ci & 0xe0) >> 5) as nat
  }

  /** The content indicator a sender writes. */
  function ContentIndicatorByte(length: nat, appType: nat): byte
    requires length < 8 && appType < 32
  {
    ((length as bv8) << 5) | (appType as bv8)
  }

  lemma UnpackContentIndicator(l: bv8, a: bv8)
    requires l < 8 && a < 32
    ensures var b := (l << 5) | a; (b & 0xe0) >> 5 == l && b & 0x1f == a
  {
  }

  /** A content indicator is read back unchanged. */
  lemma ContentIndicatorRoundTrip(length: nat, appType: nat)
    requires length < 8 && appType < 32
    ensures var b := ContentIndicatorByte(length, appType);
      LengthIndicator(b) == length && AppType(b) == appType
  {
    UnpackContentIndicator(length as bv8, appType as bv8);
    ByteOfSmall(length);
    ByteOfSmall(appType);
  }

  lemma HalfOfField(b: bv8)
    ensures ((b & 0xe0) >> 6) == ((b & 0xe0) >> 5) >> 1
  {
  }

  /**
   * As written, the shift by six drops the lowest bit of the length field:
   * the indicator is the standard's halved, at most 3, so only sub-fields of
   * 4, 6, 8 or 12 bytes are ever read; a content indicator announcing 6
   * bytes (0x21: length 1, application type 1) is read as one of 4.
   */
  lemma LengthIndicatorAsWrittenHalves(ci: byte)
    ensures LengthIndicatorAsWritten(ci) == LengthIndicator(ci) / 2 < 4
    ensures SubfieldLengths[LengthIndicatorAsWritten(ci)] in {4, 6, 8, 12}
    ensures LengthIndicatorAsWritten(0x21) == 0 && LengthIndicator(0x21) == 1
  {
    HalfOfField(ci);
    ShiftHalves((ci & 0xe0) >> 5);
  }

  lemma ShiftHalves(x: bv8)
    ensures (x >> 1) as nat == x as nat / 2
  {
  }

  // ---------------------------------------------------------------------
  // The content indicator list of a variable-size X-PAD.

  /** The length of the CI list (end marker included) and the number of CIs before the end marker. */
  datatype CiList = CiList(listLength: nat, count: nat)

  /** Content indicator k: the byte at pad[length - 3 - k]. */
  function Ci(pad: seq<byte>, k: nat): byte
    requires 3 + k <= |pad|
  {
    pad[|pad| - 3 - k]
  }

  /**
   * The scan from entry k on: it stops after an end marker (application type
   * 0) or after four entries; None when it would read before the PAD.
   */
  function ScanFrom(pad: seq<byte>, k: nat): Option<CiList>
    requires k <= 4
    decreases 4 - k
  {
    if k == 4 then Some(CiList(4, 4))
    else if |pad| < 3 + k then None
    else if AppType(Ci(pad, k)) == 0 then Some(CiList(k + 1, k))
    else ScanFrom(pad, k + 1)
  }

  /** Whether the CI list r describes the PAD: count CIs, then an end marker unless there are four. */
  predicate CiListOf(pad: seq<byte>, r: CiList)
  {
    && r.count <= r.listLength <= 4 && 2 + r.listLength <= |pad|
    && (forall k :: 0 <= k < r.count ==> AppType(Ci(pad, k)) != 0)
    && (r.listLength == r.count + 1 ==> AppType(Ci(pad, r.count)) == 0)
    && (r.listLength == r.count ==> r.count == 4)
    && (r.listLength == r.count || r.listLength == r.count + 1)
  }

  /** The scan finds exactly the CIs before the first end marker, and fails only on a PAD too short to hold them. */
  lemma {:induction false} ScanMeaning(pad: seq<byte>, k: nat)
    requires k <= 4 && 2 + k <= |pad|
    requires forall j :: 0 <= j < k ==> AppType(Ci(pad, j)) != 0
    ensures var r := ScanFrom(pad, k);
      && (r.Some? ==> CiListOf(pad, r.value))
      && (r.None? ==> |pad| < 6)
    decreases 4 - k
  {
    if k < 4 && |pad| >= 3 + k && AppType(Ci(pad, k)) != 0 {
      ScanMeaning(pad, k + 1);
    }
  }

  /** A CI list that describes the PAD is the one the scan finds. */
  lemma {:induction false} ScanUnique(pad: seq<byte>, r: CiList, k: nat)
    requires CiListOf(pad, r) && k <= r.count
    ensures ScanFrom(pad, k) == Some(r)
    decreases r.count - k
  {
    if k < r.count {
      ScanUnique(pad, r, k + 1);
    }
  }

  /** The scan loop of process_pad. */
  method ScanContentIndicators(pad: seq<byte>) returns (r: Option<CiList>)
    ensures r == ScanFrom(pad, 0)
  {
    var listLength, count := 0, 0;
    while listLength < 4
      invariant listLength == count <= 4
      invariant ScanFrom(pad, 0) == ScanFrom(pad, count)
    {
      if |pad| < 3 + listLength {
        return None;
      }
      if AppType(pad[|pad| - 3 - listLength]) == 0 {
        listLength := listLength + 1;
        return Some(CiList(listLength, count));
      }
      listLength := listLength + 1;
      count := count + 1;
    }
    return Some(CiList(listLength, count));
  }

  // ---------------------------------------------------------------------
  // The data sub-fields.

  /** What process_pad makes of a data sub-field. */
  datatype SubfieldInfo = DataGroupLengthIndicator(groupLength: nat, crcPasses: bool) | Unsupported

  /** A data sub-field: its application type and its bytes in logical order. */
  datatype Subfield = Subfield(appType: nat, bytes: seq<byte>, info: SubfieldInfo)

  /** The data group length as written, `(b0 & 0x3f) << 8 || b1`: a logical or, so 0 or 1. */
  function DataGroupLengthAsWritten(b0: byte, b1: byte): nat
  {
    if ((b0 & 0x3f) as nat) * 256 != 0 || b1 != 0 then 1 else 0
  }

  /** The data group length of the standard: the 14 bits after the two leading bits. */
  function DataGroupLength(b0: byte, b1: byte): nat
  {
    ((b0 & 0x3f) as nat) * 256 + b1 as nat
  }

  /** The two bytes a sender writes for a data group length below 2^14 (the two leading bits 0). */
  function DataGroupLengthBytes(g: nat): seq<byte>
    requires g < 16384
  {
    [(g / 256) as bv8, (g % 256) as bv8]
  }

  lemma LowSixBits(x: nat)
    requires x < 64
    ensures ((x as bv8) & 0x3f) as nat == x
  {
  }

  /** A data group length is read back unchanged, and is always below 2^14. */
  lemma DataGroupLengthRoundTrip(g: nat, b0: byte, b1: byte)
    requires g < 16384
    ensures var r := DataGroupLengthBytes(g); DataGroupLength(r[0], r[1]) == g
    ensures DataGroupLength(b0, b1) < 16384
  {
    LowSixBits(g / 256);
    ByteOfSmall(g % 256);
  }

  /** As written the length is 0 or 1, and a group of 256 bytes is reported as 1 byte long. */
  lemma DataGroupLengthAsWrittenIsFlag(b0: byte, b1: byte)
    ensures DataGroupLengthAsWritten(b0, b1) <= 1
    ensures DataGroupLengthAsWritten(b0, b1) == 1 <==> DataGroupLength(b0, b1) != 0
    ensures DataGroupLengthAsWritten(1, 0) == 1 && DataGroupLength(1, 0) == 256
  {
  }

  function InfoOf(appType: nat, bytes: seq<byte>): SubfieldInfo
    requires |bytes| >= 4
  {
    if appType == 1 then DataGroupLengthIndicator(DataGroupLengthAsWritten(bytes[0], bytes[1]), CrcPasses(bytes, |bytes| - 2))
    else Unsupported
  }

  /** The sub-field of len bytes whose first logical byte is pad[length - idx], read downwards. */
  function SubfieldBytes(pad: seq<byte>, idx: nat, len: nat): (r: seq<byte>)
    requires 1 <= idx && idx + len <= |pad| + 1
    ensures |r| == len && forall j :: 0 <= j < len ==> r[j] == pad[|pad| - idx - j]
  {
    seq(len, j requires 0 <= j < len => pad[|pad| - idx - j])
  }

  /** The length of the sub-field CI k announces. */
  function SubfieldLengthOf(pad: seq<byte>, k: nat): nat
    requires 3 + k <= |pad|
  {
    SubfieldLengths[LengthIndicatorAsWritten(Ci(pad, k))]
  }

  /**
   * Sub-fields i .. count-1, the next starting at pad[length - idx]; None
   * when one would reach before the start of the PAD.
   */
  function SubfieldsFrom(pad: seq<byte>, count: nat, i: nat, idx: nat): Option<seq<Subfield>>
    requires i <= count && 2 + count <= |pad| && idx >= 1
    decreases count - i
  {
    if i == count then Some([])
    else
      var ci := Ci(pad, i);
      var len := SubfieldLengthOf(pad, i);
      if idx + len > |pad| + 1 then None
      else
        var bytes := SubfieldBytes(pad, idx, len);
        var rest := SubfieldsFrom(pad, count, i + 1, idx + len);
        if rest.None? then None
        else Some([Subfield(AppType(ci), bytes, InfoOf(AppType(ci), bytes))] + rest.value)
  }

  /** Sub-field s is the one CI k announces, its bytes read downwards from pad[length - start]. */
  predicate SubfieldMatches(pad: seq<byte>, s: Subfield, k: nat, start: nat)
  {
    && 3 + k <= |pad| && 1 <= start && start + SubfieldLengthOf(pad, k) <= |pad| + 1
    && s.appType == AppType(Ci(pad, k))
    && s.bytes == SubfieldBytes(pad, start, SubfieldLengthOf(pad, k))
  }

  /**
   * Sub-field k of a successful read has the application type and the
   * length its CI announces, and its bytes are the PAD's, read downwards
   * from where the one before it ended.
   */
  lemma SubfieldsMeaning(pad: seq<byte>, count: nat, i: nat, idx: nat)
    requires i <= count && 2 + count <= |pad| && idx >= 1
    ensures var r := SubfieldsFrom(pad, count, i, idx);
      r.Some? ==> (|r.value| == count - i
        && forall k :: i <= k < count ==> SubfieldMatches(pad, r.value[k - i], k, idx + SumLengths(pad, i, k)))
  {
    var r := SubfieldsFrom(pad, count, i, idx);
    if r.Some? {
      SubfieldsCount(pad, count, i, idx);
      forall k | i <= k < count
        ensures SubfieldMatches(pad, r.value[k - i], k, idx + SumLengths(pad, i, k))
      {
        SubfieldAt(pad, count, i, idx, k);
      }
    }
  }

  /** A successful read holds one sub-field per CI from i on. */
  lemma {:induction false} SubfieldsCount(pad: seq<byte>, count: nat, i: nat, idx: nat)
    requires i <= count && 2 + count <= |pad| && idx >= 1
    ensures var r := SubfieldsFrom(pad, count, i, idx);
      r.Some? ==> |r.value| == count - i
    decreases count - i
  {
    if i < count && SubfieldsFrom(pad, count, i, idx).Some? {
      SubfieldsCount(pad, count, i + 1, idx + SubfieldLengthOf(pad, i));
    }
  }

  /** Sub-field k of a successful read from CI i is the one CI k announces. */
  lemma SubfieldAt(pad: seq<byte>, count: nat, i: nat, idx: nat, k: nat)
    requires i <= k < count && 2 + count <= |pad| && idx >= 1
    requires SubfieldsFrom(pad, count, i, idx).Some?
    ensures var r := SubfieldsFrom(pad, count, i, idx).value;
      k - i < |r| && SubfieldMatches(pad, r[k - i], k, idx + SumLengths(pad, i, k))
  {
    assert idx + SumLengths(pad, i, i) == idx;
    SubfieldAtFrom(pad, count, i, idx, i, k, SubfieldsFrom(pad, count, i, idx).value);
  }

  /**
   * The same for a read r from CI j that started at CI i0 from idx0: the
   * start of every sub-field stays written as idx0 plus the lengths before it.
   */
  lemma {:induction false} SubfieldAtFrom(pad: seq<byte>, count: nat, i0: nat, idx0: nat, j: nat, k: nat, r: seq<Subfield>)
    requires i0 <= j <= k < count && 2 + count <= |pad| && idx0 >= 1
    requires SubfieldsFrom(pad, count, j, idx0 + SumLengths(pad, i0, j)) == Some(r)
    ensures k - j < |r| && SubfieldMatches(pad, r[k - j], k, idx0 + SumLengths(pad, i0, k))
    decreases k - j
  {
    var idx := idx0 + SumLengths(pad, i0, j);
    SubfieldsFirst(pad, count, j, idx, r);
    if k > j {
      assert SumLengths(pad, i0, j + 1) == SumLengths(pad, i0, j) + SubfieldLengthOf(pad, j);
      SubfieldAtFrom(pad, count, i0, idx0, j + 1, k, r[1..]);
      assert r[k - j] == r[1..][k - (j + 1)];
    }
  }

  /** A successful read r from CI i is CI i's sub-field followed by a successful read from CI i + 1. */
  lemma SubfieldsFirst(pad: seq<byte>, count: nat, i: nat, idx: nat, r: seq<Subfield>)
    requires i < count && 2 + count <= |pad| && idx >= 1
    requires SubfieldsFrom(pad, count, i, idx) == Some(r)
    ensures |r| > 0 && SubfieldsFrom(pad, count, i + 1, idx + SubfieldLengthOf(pad, i)) == Some(r[1..])
      && SubfieldMatches(pad, r[0], i, idx) && SumLengths(pad, i, i) == 0
  {
  }

  /** The total length of the sub-fields of CIs i .. k-1. */
  function SumLengths(pad: seq<byte>, i: nat, k: nat): nat
    requires i <= k && 2 + k <= |pad|
    decreases k - i
  {
    if i == k then 0 else SumLengths(pad, i, k - 1) + SubfieldLengthOf(pad, k - 1)
  }

  lemma {:induction false} SumLengthsFirst(pad: seq<byte>, i: nat, k: nat)
    requires i < k && 2 + k <= |pad|
    ensures SumLengths(pad, i, k) == SubfieldLengthOf(pad, i) + SumLengths(pad, i + 1, k)
    decreases k - i
  {
    if k > i + 1 {
      SumLengthsFirst(pad, i, k - 1);
    }
  }

  /** The copy loop for one sub-field. */
  method ReadSubfield(pad: seq<byte>, idx: nat, len: nat) returns (bytes: seq<byte>)
    requires 1 <= idx && idx + len <= |pad| + 1
    ensures bytes == SubfieldBytes(pad, idx, len)
  {
    var buffer := new byte[len];
    for j := 0 to len
      invariant forall m :: 0 <= m < j ==> buffer[m] == pad[|pad| - idx - m]
    {
      buffer[j] := pad[|pad| - idx - j];
    }
    bytes := buffer[..];
  }

  // ---------------------------------------------------------------------
  // process_pad.

  /** What the X-PAD holds, as process_pad tells the cases apart. */
  datatype XPadContent =
    | Continuation                                         // no content indicator: the X-PAD continues a data group
    | ShortXPad(appType: nat)                              // X-PAD indicator 1
    | VariableXPad(cis: CiList, subfields: seq<Subfield>)  // X-PAD indicator 2
    | OtherXPad(indicator: nat)                            // no X-PAD (0) or the reserved value 3

  datatype PadReport = PadReport(fpad: FPad, content: XPadContent)

  /** A PAD too short for its F-PAD, or one whose X-PAD would be read before its first byte. */
  datatype PadError = FPadMissing | ReadsBeforePad

  datatype PadOutcome = Decoded(report: PadReport) | Failed(error: PadError)

  /** process_pad on a PAD of |pad| bytes. */
  function PadContents(pad: seq<byte>): PadOutcome
  {
    if |pad| < 2 then Failed(FPadMissing)
    else
      var f := FPadOf(pad[|pad| - 2], pad[|pad| - 1]);
      if f.contentIndicatorFlag == 0 then Decoded(PadReport(f, Continuation))
      else if f.xpadIndicator == 1 then
        if |pad| < 3 then Failed(ReadsBeforePad) else Decoded(PadReport(f, ShortXPad(AppType(pad[|pad| - 3]))))
      else if f.xpadIndicator == 2 then
        match ScanFrom(pad, 0)
        case None => Failed(ReadsBeforePad)
        case Some(cis) =>
          assert 2 + cis.count <= |pad| by { ScanMeaning(pad, 0); }
          match SubfieldsFrom(pad, cis.count, 0, 3 + cis.listLength)
          case None => Failed(ReadsBeforePad)
          case Some(subs) => Decoded(PadReport(f, VariableXPad(cis, subs)))
      else Decoded(PadReport(f, OtherXPad(f.xpadIndicator)))
  }

  /** Sub-field k is the one CI k announces, starting where sub-field k-1 ended, the first at pad[length - start]. */
  predicate SubfieldsLaidOut(pad: seq<byte>, subs: seq<Subfield>, start: nat)
  {
    2 + |subs| <= |pad|
    && forall k :: 0 <= k < |subs| ==> SubfieldMatches(pad, subs[k], k, start + SumLengths(pad, 0, k))
  }

  /** The sub-field read for a CI list covers every CI, in order, and follows the list. */
  predicate VariableXPadOf(pad: seq<byte>, cis: CiList, subs: seq<Subfield>)
  {
    CiListOf(pad, cis) && |subs| == cis.count && SubfieldsLaidOut(pad, subs, 3 + cis.listLength)
  }

  lemma SubfieldsFromStart(pad: seq<byte>, count: nat, start: nat, subs: seq<Subfield>)
    requires 2 + count <= |pad| && start >= 1 && SubfieldsFrom(pad, count, 0, start) == Some(subs)
    ensures |subs| == count && SubfieldsLaidOut(pad, subs, start)
  {
    SubfieldsMeaning(pad, count, 0, start);
    forall k | 0 <= k < |subs|
      ensures SubfieldMatches(pad, subs[k], k, start + SumLengths(pad, 0, k))
    {
      assert subs[k] == subs[k - 0];
    }
  }

  lemma VariableXPadFields(pad: seq<byte>, cis: CiList, subs: seq<Subfield>)
    requires CiListOf(pad, cis)
    requires SubfieldsFrom(pad, cis.count, 0, 3 + cis.listLength) == Some(subs)
    ensures VariableXPadOf(pad, cis, subs)
  {
    SubfieldsFromStart(pad, cis.count, 3 + cis.listLength, subs);
  }

  /** The list the scan returns describes the PAD. */
  lemma ScannedList(pad: seq<byte>, cis: CiList)
    requires ScanFrom(pad, 0) == Some(cis)
    ensures CiListOf(pad, cis)
  {
    ScanMeaning(pad, 0);
  }

  /**
   * A variable-size X-PAD's CI list is the one before the first end marker;
   * it has one sub-field per CI, each of the length its CI announces, read
   * from the PAD right after the list and after the sub-fields before it.
   */
  lemma PadContentsVariable(pad: seq<byte>)
    ensures var r := PadContents(pad);
      r.Decoded? && r.report.content.VariableXPad? ==>
        VariableXPadOf(pad, r.report.content.cis, r.report.content.subfields)
  {
    var r := PadContents(pad);
    if r.Decoded? && r.report.content.VariableXPad? {
      ScannedList(pad, r.report.content.cis);
      VariableXPadFields(pad, r.report.content.cis, r.report.content.subfields);
    }
  }

  /**
   * Every data sub-field is 4, 6, 8 or 12 bytes long: the indicator as read
   * reaches only the first four entries of the table.
   */
  lemma SubfieldLengthListed(pad: seq<byte>, k: nat)
    requires 3 + k <= |pad|
    ensures SubfieldLengthOf(pad, k) in {4, 6, 8, 12}
  {
    LengthIndicatorAsWrittenHalves(Ci(pad, k));
  }

  /** Every sub-field of a decoded variable-size X-PAD is 4, 6, 8 or 12 bytes long. */
  lemma PadSubfieldLengths(pad: seq<byte>)
    ensures var r := PadContents(pad);
      r.Decoded? && r.report.content.VariableXPad? ==>
        forall s <- r.report.content.subfields :: |s.bytes| in {4, 6, 8, 12}
  {
    var r := PadContents(pad);
    if r.Decoded? && r.report.content.VariableXPad? {
      var subs := r.report.content.subfields;
      PadContentsVariable(pad);
      forall s <- subs
        ensures |s.bytes| in {4, 6, 8, 12}
      {
        var k :| 0 <= k < |subs| && subs[k] == s;
        SubfieldLengthListed(pad, k);
      }
    }
  }

  /** Every X-PAD is reported when the PAD holds its F-PAD; only a variable X-PAD can reach before the PAD. */
  lemma PadContentsFails(pad: seq<byte>)
    ensures PadContents(pad) == Failed(FPadMissing) <==> |pad| < 2
    ensures PadContents(pad) == Failed(ReadsBeforePad) ==>
      FPadOf(pad[|pad| - 2], pad[|pad| - 1]).contentIndicatorFlag == 1
      && FPadOf(pad[|pad| - 2], pad[|pad| - 1]).xpadIndicator in {1, 2}
  {
  }

  /**
   * The smallest variable-size X-PAD: F-PAD bytes 0x20, 0x02 and, at pad[0],
   * an end marker; the CI list is the end marker alone and there is no sub-field.
   */
  lemma EndMarkerAtFirstByte()
    ensures PadContents([0x00, 0x20, 0x02]) == Decoded(PadReport(FPad(0, 2, 0, 1), VariableXPad(CiList(1, 0), [])))
  {
    var pad: seq<byte> := [0x00, 0x20, 0x02];
    assert FPadOf(pad[1], pad[2]) == FPad(0, 2, 0, 1);
    assert AppType(Ci(pad, 0)) == 0;
    assert ScanFrom(pad, 0) == Some(CiList(1, 0));
  }

  /** process_pad with its loops: the CI scan, then one copy loop per sub-field. */
  method ProcessPad(pad: seq<byte>) returns (r: PadOutcome)
    ensures r == PadContents(pad)
  {
    if |pad| < 2 {
      return Failed(FPadMissing);
    }
    var f := FPadOf(pad[|pad| - 2], pad[|pad| - 1]);
    if f.contentIndicatorFlag == 0 {
      return Decoded(PadReport(f, Continuation));
    }
    if f.xpadIndicator == 1 {
      if |pad| < 3 {
        return Failed(ReadsBeforePad);
      }
      return Decoded(PadReport(f, ShortXPad(AppType(pad[|pad| - 3]))));
    }
    if f.xpadIndicator != 2 {
      return Decoded(PadReport(f, OtherXPad(f.xpadIndicator)));
    }
    var scan := ScanContentIndicators(pad);
    if scan.None? {
      return Failed(ReadsBeforePad);
    }
    var cis := scan.value;
    ScanMeaning(pad, 0);
    var subs := ReadSubfields(pad, cis.count, 3 + cis.listLength);
    if subs.None? {
      return Failed(ReadsBeforePad);
    }
    return Decoded(PadReport(f, VariableXPad(cis, subs.value)));
  }

  /** The sub-field loop of process_pad, starting at pad[length - start]. */
  method ReadSubfields(pad: seq<byte>, count: nat, start: nat) returns (r: Option<seq<Subfield>>)
    requires 2 + count <= |pad| && start >= 1
    ensures r == SubfieldsFrom(pad, count, 0, start)
  {
    var subs: seq<Subfield> := [];
    var idx := start;
    PrependNothing(SubfieldsFrom(pad, count, 0, start));
    for i := 0 to count
      invariant idx >= 1
      invariant SubfieldsFrom(pad, count, 0, start) == Prepend(subs, SubfieldsFrom(pad, count, i, idx))
    {
      var ci := pad[|pad| - 3 - i];
      var len := SubfieldLengths[LengthIndicatorAsWritten(ci)];
      if idx + len > |pad| + 1 {
        return None;
      }
      var bytes := ReadSubfield(pad, idx, len);
      var s := Subfield(AppType(ci), bytes, InfoOf(AppType(ci), bytes));
      PrependTwice(subs, [s], SubfieldsFrom(pad, count, i + 1, idx + len));
      subs := subs + [s];
      idx := idx + len;
    }
    assert subs + [] == subs;
    return Some(subs);
  }

  // ---------------------------------------------------------------------
  // process_dynamic_label_segment.

  /**
   * A dynamic-label segment: the toggle, first and last flags, then either a
   * message segment (its charset when first, else its segment number, and
   * its characters) or a command segment (its four-bit command field).
   */
  datatype LabelSegment =
    | MessageSegment(toggle: nat, first: nat, last: nat, charsetOrSegnum: nat, chars: seq<byte>)
    | CommandSegment(toggle: nat, first: nat, last: nat, command: nat)

  /** The segment's header; None when it reaches past the segment's bytes. */
  function DynamicLabelSegment(segment: seq<byte>): Option<LabelSegment>
  {
    if |segment| < 1 then None
    else
      var h := segment[0];
      var toggle, first, last := ((h & 0x80) >> 7) as nat, ((h & 0x40) >> 6) as nat, ((h & 0x20) >> 5) as nat;
      var c, field := ((h & 0x10) >> 4) as nat, (h & 0x0f) as nat;
      if c == 1 then Some(CommandSegment(toggle, first, last, field))
      else if |segment| < 2 + field then None
      else
        var prefix := if first == 1 then ((segment[1] & 0xf0) >> 4) as nat else ((segment[1] & 0x70) >> 4) as nat;
        Some(MessageSegment(toggle, first, last, prefix, segment[2..2 + field]))
  }

  predicate LabelSegmentInRange(s: LabelSegment)
  {
    s.toggle < 2 && s.first < 2 && s.last < 2
    && match s
       case MessageSegment(_, first, _, prefix, chars) => |chars| < 16 && (if first == 1 then prefix < 16 else prefix < 8)
       case CommandSegment(_, _, _, command) => command < 16
  }

  function HeaderByte(toggle: nat, first: nat, last: nat, c: nat, field: nat): byte
    requires toggle < 2 && first < 2 && last < 2 && c < 2 && field < 16
  {
    ((toggle as bv8) << 7) | ((first as bv8) << 6) | ((last as bv8) << 5) | ((c as bv8) << 4) | (field as bv8)
  }

  /** The bytes a sender writes for a segment (the CRC is not part of what is read here). */
  function LabelSegmentBytes(s: LabelSegment): seq<byte>
    requires LabelSegmentInRange(s)
  {
    match s
    case MessageSegment(toggle, first, last, prefix, chars) =>
      [HeaderByte(toggle, first, last, 0, |chars|), (prefix as bv8) << 4] + chars
    case CommandSegment(toggle, first, last, command) =>
      [HeaderByte(toggle, first, last, 1, command), 0]
  }

  lemma UnpackHeader(t: bv8, f: bv8, l: bv8, c: bv8, x: bv8)
    requires t < 2 && f < 2 && l < 2 && c < 2 && x < 16
    ensures var h := (t << 7) | (f << 6) | (l << 5) | (c << 4) | x;
      (h & 0x80) >> 7 == t && (h & 0x40) >> 6 == f && (h & 0x20) >> 5 == l && (h & 0x10) >> 4 == c && h & 0x0f == x
  {
  }

  lemma UnpackPrefix(p: bv8)
    requires p < 16
    ensures ((p << 4) & 0xf0) >> 4 == p && (p < 8 ==> ((p << 4) & 0x70) >> 4 == p)
  {
  }

  lemma HeaderByteFields(toggle: nat, first: nat, last: nat, c: nat, field: nat)
    requires toggle < 2 && first < 2 && last < 2 && c < 2 && field < 16
    ensures var h := HeaderByte(toggle, first, last, c, field);
      ((h & 0x80) >> 7) as nat == toggle && ((h & 0x40) >> 6) as nat == first && ((h & 0x20) >> 5) as nat == last
      && ((h & 0x10) >> 4) as nat == c && (h & 0x0f) as nat == field
  {
    UnpackHeader(toggle as bv8, first as bv8, last as bv8, c as bv8, field as bv8);
    ByteOfSmall(toggle);
    ByteOfSmall(first);
    ByteOfSmall(last);
    ByteOfSmall(c);
    ByteOfSmall(field);
  }

  /** A segment a sender writes is read back unchanged. */
  lemma LabelSegmentRoundTrip(s: LabelSegment)
    requires LabelSegmentInRange(s)
    ensures DynamicLabelSegment(LabelSegmentBytes(s)) == Some(s)
  {
    match s
    case MessageSegment(toggle, first, last, prefix, chars) =>
      MessageSegmentRead(toggle, first, last, prefix, chars);
    case CommandSegment(toggle, first, last, command) =>
      HeaderByteFields(toggle, first, last, 1, command);
  }

  lemma MessageSegmentRead(toggle: nat, first: nat, last: nat, prefix: nat, chars: seq<byte>)
    requires LabelSegmentInRange(MessageSegment(toggle, first, last, prefix, chars))
    ensures DynamicLabelSegment(LabelSegmentBytes(MessageSegment(toggle, first, last, prefix, chars)))
      == Some(MessageSegment(toggle, first, last, prefix, chars))
  {
    var b := LabelSegmentBytes(MessageSegment(toggle, first, last, prefix, chars));
    var h := HeaderByte(toggle, first, last, 0, |chars|);
    assert b == [h, (prefix as bv8) << 4] + chars;
    HeaderByteFields(toggle, first, last, 0, |chars|);
    UnpackPrefix(prefix as bv8);
    ByteOfSmall(prefix);
    assert b[0] == h && |b| == 2 + |chars|;
    assert b[1] == (prefix as bv8) << 4;
    assert b[2..2 + |chars|] == chars;
  }

  /** Every segment read has its fields in range: a message never carries more than 15 characters. */
  lemma DynamicLabelSegmentInRange(segment: seq<byte>)
    ensures var r := DynamicLabelSegment(segment); r.Some? ==> LabelSegmentInRange(r.value)
  {
  }
}
