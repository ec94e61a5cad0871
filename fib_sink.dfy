/**
 * The FIB sink: every 32-byte Fast Information Block whose CRC checks is
 * walked FIG by FIG (ETSI EN 300 401, section 5.2), and each FIG is decoded
 * according to its type and extension. The block logs what it decodes; here
 * the decoded fields are returned as records instead.
 *
 * The FIB constants and the CRC routine come from FIC.h and crc16.h, which
 * are not part of this model: the constants take the values of ETSI EN 300 401
 * (a 32-byte FIB whose last 2 bytes are the CRC, end marker 0xFF, FIG types 0,
 * 1, 2, 5 and 6, and the standard's extension numbers), and the CRC check is
 * a parameter. The block reads plain `char`s; whether `char` is signed on the
 * target platform is a parameter too, and so is whether the two asserts of
 * process_fib are compiled in.
 */
module FibSink {
  import opened Signal

  const FibLength: nat := 32
  const FibCrcLength: nat := 2
  /** The bytes of a FIB that carry FIGs. */
  const FibDataLength: nat := FibLength - FibCrcLength
  const FibEndMarker: byte := 0xff

  /**
   * `crcPasses` is the test crc16(fib, FIB_LENGTH, ...) == 0 on the first
   * FIB_LENGTH bytes; `signedChar` says that `char` is signed; `assertsEnabled`
   * that assert() aborts (no NDEBUG).
   */
  datatype Config = Config(crcPasses: seq<byte> -> bool, signedChar: bool, assertsEnabled: bool)

  /** The value of the bits of b under mask, shifted right. */
  function Field(b: byte, mask: byte, shift: nat): nat
    requires shift < 8
  {
    ((b & mask) >> shift) as nat
  }

  /** The 12-bit value `(hi & 0x0f) << 8 | lo`: a service or ensemble reference, a SCId. */
  function Word12(hi: byte, lo: byte): (w: nat)
    ensures w < 4096
  {
    Field(hi, 0x0f, 0) * 256 + lo as nat
  }

  // ---------------------------------------------------------------------
  // FIG headers

  /** fib[pos] >> 5 stored in a uint8_t. */
  function FigType(b: byte, signedChar: bool): nat
  {
    if signedChar && b >= 0x80 then (b >> 5) as nat + 0xf8 else (b >> 5) as nat
  }

  /** fib[pos] & 0x1f: the FIG's data length in bytes, without the header. */
  function FigLength(b: byte): (l: nat)
    ensures l < 32
  {
    (b & 0x1f) as nat
  }

  /**
   * The type is the top 3 bits of the header byte and the length its low 5
   * bits. With a signed `char` a header byte of 0x80 or more is negative, the
   * shift keeps the sign, and the cast to uint8_t gives a type of 0xFC .. 0xFF.
   */
  lemma HeaderFields(b: byte, signedChar: bool)
    ensures FigLength(b) == Field(b, 0x1f, 0)
    ensures b < 0x80 || !signedChar ==> FigType(b, signedChar) < 8 && FigType(b, signedChar) == Field(b, 0xe0, 5)
    ensures b >= 0x80 && signedChar ==> 0xfc <= FigType(b, signedChar) <= 0xff
                                        && FigType(b, signedChar) % 8 == Field(b, 0xe0, 5)
  {
  }

  /**
   * A header byte is its type (top 3 bits) times 32 plus its length (low 5
   * bits), so type and length determine it.
   */
  lemma HeaderSplit(a: byte, b: byte)
    ensures FigType(a, false) * 32 + FigLength(a) == a as nat
    ensures FigType(a, false) == FigType(b, false) && FigLength(a) == FigLength(b) ==> a == b
  {
  }

  /**
   * With a signed `char`, a header with its top bit set has a type of 0xFC or
   * more, so FIG types 4 to 7 (FIDC and conditional access among them) never
   * reach their branches.
   */
  lemma SignedCharHidesHighTypes(b: byte)
    ensures 4 <= FigType(b, false) < 8 <==> b >= 0x80
    ensures b >= 0x80 ==> FigType(b, true) >= 0xfc
  {
  }

  // ---------------------------------------------------------------------
  // FIG 0/0: ensemble information

  datatype EnsembleInfo = EnsembleInfo(reference: nat, changeFlag: nat, occurrenceChange: nat, alarm: nat,
                                       cifCounter: nat)

  /**
   * FIG 0/0 from the FIG's bytes (data[0] is the FIG header). The CIF counter
   * (data[4] & 0x1f) * 250 + data[5] adds data[5] without a cast, so with a
   * signed `char` a byte of 0x80 or more counts 256 less, and the uint16_t
   * cast wraps a negative sum.
   */
  function EnsembleInfoOf(data: seq<byte>, signedChar: bool): (r: Option<EnsembleInfo>)
    ensures r.Some? <==> |data| > 6
    ensures r.Some? ==>
      r.value.reference < 4096 && r.value.changeFlag < 4 && r.value.alarm < 2 && r.value.occurrenceChange < 256
      && r.value.reference == Word12(data[2], data[3])
      && r.value.cifCounter < 65536
  {
    if |data| <= 6 then None
    else
      var low: int := if signedChar && data[5] >= 0x80 then data[5] as int - 256 else data[5] as int;
      Some(EnsembleInfo(Word12(data[2], data[3]), Field(data[4], 0xc0, 6),
                        data[6] as nat, Field(data[4], 0x20, 5), (Field(data[4], 0x1f, 0) * 250 + low) % 65536))
  }

  /**
   * With an unsigned `char` the CIF counter is the high part (0 .. 31) times
   * 250 plus the low byte, so at most 8005.
   */
  lemma CifCounterBound(data: seq<byte>)
    requires |data| > 6
    ensures var r := EnsembleInfoOf(data, false).value;
      r.cifCounter == Field(data[4], 0x1f, 0) * 250 + data[5] as nat && r.cifCounter <= 8005
  {
  }

  /** With a signed `char`, high part 0 and low byte 0xFF give 65535 instead of 255. */
  lemma SignedCifCounterWraps()
    ensures var data: seq<byte> := [0x00, 0x00, 0x00, 0x00, 0x00, 0xff, 0x00];
      EnsembleInfoOf(data, true).value.cifCounter == 65535
      && EnsembleInfoOf(data, false).value.cifCounter == 255
  {
  }

  // ---------------------------------------------------------------------
  // FIG 0/1: sub-channel organisation

  datatype Subchannel =
    | ShortForm(subchId: nat, startAddress: nat, tableSwitch: bool, tableIndex: nat)
    | LongForm(subchId: nat, startAddress: nat, option: nat, protectionLevel: nat, size: nat)
  {
    /** The bytes the decoder advances over for this entry. */
    function Bytes(): nat { if ShortForm? then 3 else 4 }
  }

  /**
   * The sub-channel entry at counter c (its first byte is data[2 + c]), with
   * its short/long form bit read from data[formAt]: the block reads it from
   * data[4] for every entry. None when a read lies past the input.
   */
  function SubchannelAt(data: seq<byte>, c: nat, formAt: nat): (r: Option<Subchannel>)
    ensures r.Some? ==> formAt < |data| && 4 + c < |data|
    ensures r.Some? ==> (r.value.ShortForm? <==> data[formAt] & 0x80 == 0)
    ensures r.Some? ==> r.value.subchId < 64 && r.value.startAddress < 1024
    ensures r.Some? && r.value.LongForm? ==> r.value.protectionLevel < 4 && r.value.size < 1024
  {
    if |data| <= 4 + c || |data| <= formAt then None
    else
      var id, start := Field(data[2 + c], 0xfc, 2), Field(data[2 + c], 0x03, 0) * 256 + data[3 + c] as nat;
      if data[formAt] & 0x80 == 0 then
        Some(ShortForm(id, start, data[4 + c] & 0x40 != 0, Field(data[4 + c], 0x3f, 0)))
      else if |data| <= 5 + c then None
      else
        Some(LongForm(id, start, Field(data[4 + c], 0x70, 0), Field(data[4 + c], 0x0c, 2),
                      Field(data[4 + c], 0x03, 0) * 256 + data[5 + c] as nat))
  }

  /** Where the decoder reads an entry's form bit: data[4] as written, the entry's own third byte per the standard. */
  function FormAt(c: nat, perStandard: bool): nat
  {
    if perStandard then 4 + c else 4
  }

  /** The FIG 0/1 do-while loop from counter c: an entry, then more while 1 + counter < length. */
  function Subchannels(data: seq<byte>, length: nat, c: nat, perStandard: bool): Option<seq<Subchannel>>
    decreases length - c
  {
    var e := SubchannelAt(data, c, FormAt(c, perStandard));
    if e.None? then None
    else if 1 + c + e.value.Bytes() < length then Prepend([e.value], Subchannels(data, length, c + e.value.Bytes(), perStandard))
    else Some([e.value])
  }

  /** The bytes a sequence of entries advances over. */
  function SubchannelBytes(es: seq<Subchannel>): nat
  {
    if es == [] then 0 else SubchannelBytes(es[..|es| - 1]) + es[|es| - 1].Bytes()
  }

  /**
   * The FIG 0/1 loop decodes at least one entry, stops once 1 + the bytes
   * consumed reach the length, and went on after every earlier entry because
   * 1 + the bytes consumed were still below it.
   */
  lemma {:induction false} SubchannelsConsume(data: seq<byte>, length: nat, c: nat, perStandard: bool)
    requires Subchannels(data, length, c, perStandard).Some?
    ensures var es := Subchannels(data, length, c, perStandard).value;
      |es| >= 1 && 1 + c + SubchannelBytes(es) >= length
      && (|es| > 1 ==> 1 + c + SubchannelBytes(es[..|es| - 1]) < length)
    decreases length - c
  {
    var e := SubchannelAt(data, c, FormAt(c, perStandard)).value;
    var es := Subchannels(data, length, c, perStandard).value;
    if 1 + c + e.Bytes() < length {
      var rest := Subchannels(data, length, c + e.Bytes(), perStandard).value;
      SubchannelsConsume(data, length, c + e.Bytes(), perStandard);
      assert es == [e] + rest;
      SubchannelBytesCons(e, rest);
      if |rest| > 1 {
        SubchannelBytesCons(e, rest[..|rest| - 1]);
        assert es[..|es| - 1] == [e] + rest[..|rest| - 1];
      } else {
        assert es[..|es| - 1] == [e];
        SubchannelBytesCons(e, []);
      }
    } else {
      assert es == [e];
      SubchannelBytesCons(e, []);
    }
  }

  /** As written, every FIG 0/1 entry has the form given by the bit of data[4]. */
  lemma {:induction false} SubchannelsOneForm(data: seq<byte>, length: nat, c: nat)
    requires Subchannels(data, length, c, false).Some?
    ensures var es := Subchannels(data, length, c, false).value;
      forall k :: 0 <= k < |es| ==> (es[k].ShortForm? <==> data[4] & 0x80 == 0)
    decreases length - c
  {
    var e := SubchannelAt(data, c, 4).value;
    if 1 + c + e.Bytes() < length {
      SubchannelsOneForm(data, length, c + e.Bytes());
    }
  }

  lemma {:induction false} SubchannelBytesCons(e: Subchannel, es: seq<Subchannel>)
    ensures SubchannelBytes([e] + es) == e.Bytes() + SubchannelBytes(es)
    decreases |es|
  {
    if es != [] {
      assert ([e] + es)[..|[e] + es| - 1] == [e] + es[..|es| - 1];
      SubchannelBytesCons(e, es[..|es| - 1]);
    } else {
      assert ([e] + es)[..|[e] + es| - 1] == [];
    }
  }

  /**
   * A FIG 0/1 of length 8 with a short-form entry followed by a long-form
   * one, then an end marker: the block reads the second entry as short form
   * and then a third entry from the end marker and beyond; the standard's
   * per-entry form bit reads the two entries the FIG holds.
   */
  lemma MixedFormsMisread()
    ensures var data: seq<byte> := [0x08, 0x01, 0x04, 0x10, 0x05, 0x08, 0x20, 0x88, 0x30, 0xff, 0xff];
      Subchannels(data, 8, 0, false)
        == Some([ShortForm(1, 16, false, 5), ShortForm(2, 32, false, 8), ShortForm(12, 255, true, 63)])
      && Subchannels(data, 8, 0, true) == Some([ShortForm(1, 16, false, 5), LongForm(2, 32, 0, 2, 48)])
  {
    var data: seq<byte> := [0x08, 0x01, 0x04, 0x10, 0x05, 0x08, 0x20, 0x88, 0x30, 0xff, 0xff];
    var a, b, c := ShortForm(1, 16, false, 5), ShortForm(2, 32, false, 8), ShortForm(12, 255, true, 63);
    var d := LongForm(2, 32, 0, 2, 48);
    assert SubchannelAt(data, 0, 4) == Some(a);
    assert SubchannelAt(data, 3, 4) == Some(b);
    assert SubchannelAt(data, 6, 4) == Some(c);
    assert SubchannelAt(data, 3, 7) == Some(d);
    assert Subchannels(data, 8, 6, false) == Some([c]);
    assert [b] + [c] == [b, c] && [a] + [b, c] == [a, b, c] && [a] + [d] == [a, d];
    assert Subchannels(data, 8, 3, false) == Some([b, c]);
    assert Subchannels(data, 8, 3, true) == Some([d]);
  }

  /** The FIG 0/1 do-while loop as the block runs it, the form bit from data[4]. */
  method DecodeSubchannels(data: seq<byte>, length: nat) returns (r: Option<seq<Subchannel>>)
    ensures r == Subchannels(data, length, 0, false)
  {
    var counter: nat := 0;
    var entries: seq<Subchannel> := [];
    PrependNothing(Subchannels(data, length, 0, false));
    while true
      invariant counter == 0 || 1 + counter < length
      invariant Subchannels(data, length, 0, false) == Prepend(entries, Subchannels(data, length, counter, false))
      decreases length - counter
    {
      var e := SubchannelAt(data, counter, 4);
      if e.None? {
        return None;
      }
      PrependTwice(entries, [e.value], Subchannels(data, length, counter + e.value.Bytes(), false));
      entries := entries + [e.value];
      counter := counter + e.value.Bytes();
      if !(1 + counter < length) {
        return Some(entries);
      }
    }
  }

  // ---------------------------------------------------------------------
  // FIG 0/2: service organisation

  datatype Component = Component(tmid: nat, componentType: nat, subchId: nat, primary: nat)

  datatype Service = Service(reference: nat, local: nat, ca: nat, components: seq<Component>)
  {
    /** The bytes the decoder advances over for this service. */
    function Bytes(): nat { 3 + 2 * |components| }
  }

  /**
   * Where component i of the service at counter sc has its P/S bit: the
   * block reads data[sc + 5 + 2i + 1], the byte after the component; the
   * standard puts it in the component's own second byte, data[sc + 5 + 2i].
   */
  function PrimaryAt(sc: nat, i: nat, perStandard: bool): nat
  {
    if perStandard then sc + 5 + 2 * i else sc + 5 + 2 * i + 1
  }

  /** Component i of the service at counter sc. */
  function ComponentAt(data: seq<byte>, sc: nat, i: nat, perStandard: bool): (r: Component)
    requires PrimaryAt(sc, i, perStandard) < |data| && sc + 5 + 2 * i < |data|
    ensures r.tmid < 4 && r.componentType < 64 && r.subchId < 64 && r.primary < 2
  {
    Component(Field(data[sc + 4 + 2 * i], 0xc0, 6), Field(data[sc + 4 + 2 * i], 0x3f, 0),
              Field(data[sc + 5 + 2 * i], 0xfc, 2), Field(data[PrimaryAt(sc, i, perStandard)], 0x02, 1))
  }

  /** The last byte a service at counter sc with n components reads. */
  function ServiceEnd(sc: nat, n: nat, perStandard: bool): nat
  {
    if n == 0 then sc + 3 else PrimaryAt(sc, n - 1, perStandard)
  }

  /** The service at counter sc (its reference in data[sc + 1 .. sc + 2]). */
  function ServiceAt(data: seq<byte>, sc: nat, perStandard: bool): (r: Option<Service>)
    ensures r.Some? ==> sc + 3 < |data| && |r.value.components| == Field(data[sc + 3], 0x0f, 0)
    ensures r.Some? ==> r.value.reference < 4096 && |r.value.components| <= 15 && r.value.Bytes() <= 33
  {
    if |data| <= sc + 3 then None
    else
      var n := Field(data[sc + 3], 0x0f, 0);
      if |data| <= ServiceEnd(sc, n, perStandard) then None
      else
        Some(Service(Word12(data[sc + 1], data[sc + 2]), Field(data[sc + 3], 0x80, 7),
                     Field(data[sc + 3], 0x70, 4),
                     seq(n, i requires 0 <= i < n => ComponentAt(data, sc, i, perStandard))))
  }

  /** The FIG 0/2 do-while loop from counter sc: a service, then more while the counter is below the length. */
  function Services(data: seq<byte>, length: nat, sc: nat, perStandard: bool): Option<seq<Service>>
    decreases length - sc
  {
    var s := ServiceAt(data, sc, perStandard);
    if s.None? then None
    else if sc + s.value.Bytes() < length then Prepend([s.value], Services(data, length, sc + s.value.Bytes(), perStandard))
    else Some([s.value])
  }

  /**
   * Every decoded service advanced the counter by 3 + 2 * its component
   * count, with at most 15 components, and the services are read back to
   * back from counter sc.
   */
  lemma {:induction false} ServicesShape(data: seq<byte>, length: nat, sc: nat, perStandard: bool)
    requires Services(data, length, sc, perStandard).Some?
    ensures var ss := Services(data, length, sc, perStandard).value;
      |ss| >= 1 && ss[0] == ServiceAt(data, sc, perStandard).value
      && forall k :: 0 <= k < |ss| ==> |ss[k].components| <= 15 && ss[k].Bytes() == 3 + 2 * |ss[k].components|
    decreases length - sc
  {
    var s := ServiceAt(data, sc, perStandard).value;
    if sc + s.Bytes() < length {
      ServicesShape(data, length, sc + s.Bytes(), perStandard);
    }
  }

  /**
   * A FIG 0/2 of length 6 with one service of one primary component,
   * followed by the next FIG's header 0x10: the block takes the P/S flag from
   * that header and reads the component as secondary.
   */
  lemma PrimaryFlagMisread()
    ensures var data: seq<byte> := [0x06, 0x02, 0x10, 0x01, 0x01, 0x00, 0x0a, 0x10];
      Services(data, 6, 1, false) == Some([Service(1, 0, 0, [Component(0, 0, 2, 0)])])
      && Services(data, 6, 1, true) == Some([Service(1, 0, 0, [Component(0, 0, 2, 1)])])
  {
    var data: seq<byte> := [0x06, 0x02, 0x10, 0x01, 0x01, 0x00, 0x0a, 0x10];
    assert ServiceAt(data, 1, false).value.components == [ComponentAt(data, 1, 0, false)];
    assert ServiceAt(data, 1, true).value.components == [ComponentAt(data, 1, 0, true)];
  }

  /**
   * Read per the standard, a service is decoded from its own 3 + 2n bytes
   * alone (data[sc + 1 .. sc + 3 + 2n]): whatever follows it does not change it.
   */
  lemma ServiceLocal(data: seq<byte>, other: seq<byte>, sc: nat)
    requires sc + 3 < |data| && sc + 3 < |other| && data[sc + 3] == other[sc + 3]
    requires var n := Field(data[sc + 3], 0x0f, 0);
      sc + 3 + 2 * n < |data| && sc + 3 + 2 * n < |other|
      && forall j :: sc < j <= sc + 3 + 2 * n ==> data[j] == other[j]
    ensures ServiceAt(data, sc, true).Some? && ServiceAt(data, sc, true) == ServiceAt(other, sc, true)
  {
    var n := Field(data[sc + 3], 0x0f, 0);
    assert ServiceEnd(sc, n, true) <= sc + 3 + 2 * n;
    var a, b := ServiceAt(data, sc, true).value, ServiceAt(other, sc, true).value;
    assert |a.components| == |b.components| == n;
    forall i | 0 <= i < n
      ensures a.components[i] == b.components[i]
    {
      assert data[sc + 4 + 2 * i] == other[sc + 4 + 2 * i] && data[sc + 5 + 2 * i] == other[sc + 5 + 2 * i];
      assert a.components[i] == ComponentAt(data, sc, i, true) && b.components[i] == ComponentAt(other, sc, i, true);
    }
    assert data[sc + 1] == other[sc + 1] && data[sc + 2] == other[sc + 2];
    assert a.components == b.components;
  }

  /** The FIG 0/2 do-while loop as the block runs it, with its inner loop over the components. */
  method DecodeServices(data: seq<byte>, length: nat) returns (r: Option<seq<Service>>)
    ensures r == Services(data, length, 1, false)
  {
    var counter: nat := 1;
    var services: seq<Service> := [];
    PrependNothing(Services(data, length, 1, false));
    while true
      invariant counter == 1 || counter < length
      invariant Services(data, length, 1, false) == Prepend(services, Services(data, length, counter, false))
      decreases length + 1 - counter
    {
      var s := DecodeService(data, counter);
      if s.None? {
        return None;
      }
      PrependTwice(services, [s.value], Services(data, length, counter + s.value.Bytes(), false));
      services := services + [s.value];
      counter := counter + s.value.Bytes();
      if !(counter < length) {
        return Some(services);
      }
    }
  }

  /** One service of the FIG 0/2 loop, its components read by a for loop. */
  method DecodeService(data: seq<byte>, sc: nat) returns (r: Option<Service>)
    ensures r == ServiceAt(data, sc, false)
  {
    if |data| <= sc + 3 {
      return None;
    }
    var n := Field(data[sc + 3], 0x0f, 0);
    if |data| <= ServiceEnd(sc, n, false) {
      return None;
    }
    var components: seq<Component> := [];
    for i := 0 to n
      invariant |components| == i
      invariant forall k :: 0 <= k < i ==> components[k] == ComponentAt(data, sc, k, false)
    {
      components := components + [ComponentAt(data, sc, i, false)];
    }
    assert components == seq(n, i requires 0 <= i < n => ComponentAt(data, sc, i, false));
    r := Some(Service(Word12(data[sc + 1], data[sc + 2]), Field(data[sc + 3], 0x80, 7),
                      Field(data[sc + 3], 0x70, 4), components));
  }

  // ---------------------------------------------------------------------
  // FIG 0/8: service component global definition

  datatype GlobalDefinition =
    | ShortDefinition(reference: nat, scids: nat, subchId: nat)
    | LongDefinition(reference: nat, scids: nat, scid: nat)
  {
    function Bytes(): nat { if ShortDefinition? then 5 else 6 }
  }

  /** The definition at counter c: bit 7 of data[c + 5] selects the short (sub-channel) or long (SCId) form. */
  function DefinitionAt(data: seq<byte>, c: nat): (r: Option<GlobalDefinition>)
    ensures r.Some? ==> c + 5 < |data| && (r.value.ShortDefinition? <==> data[c + 5] & 0x80 == 0)
    ensures r.Some? ==> r.value.reference < 4096 && r.value.scids < 16
    ensures r.Some? ==> if r.value.ShortDefinition? then r.value.subchId < 64 else r.value.scid < 4096 && c + 6 < |data|
  {
    if |data| <= c + 5 then None
    else
      var reference, scids := Word12(data[c + 2], data[c + 3]), Field(data[c + 4], 0x0f, 0);
      if data[c + 5] & 0x80 == 0 then Some(ShortDefinition(reference, scids, Field(data[c + 5], 0x3f, 0)))
      else if |data| <= c + 6 then None
      else Some(LongDefinition(reference, scids, Word12(data[c + 5], data[c + 6])))
  }

  /** The FIG 0/8 do-while loop from counter c. */
  function Definitions(data: seq<byte>, length: nat, c: nat): Option<seq<GlobalDefinition>>
    decreases length - c
  {
    var d := DefinitionAt(data, c);
    if d.None? then None
    else if 1 + c + d.value.Bytes() < length then Prepend([d.value], Definitions(data, length, c + d.value.Bytes()))
    else Some([d.value])
  }

  /** The bytes a sequence of definitions advances over: 5 per short form, 6 per long form. */
  function DefinitionBytes(ds: seq<GlobalDefinition>): nat
  {
    if ds == [] then 0 else DefinitionBytes(ds[..|ds| - 1]) + ds[|ds| - 1].Bytes()
  }

  lemma {:induction false} DefinitionBytesCons(d: GlobalDefinition, ds: seq<GlobalDefinition>)
    ensures DefinitionBytes([d] + ds) == d.Bytes() + DefinitionBytes(ds)
    decreases |ds|
  {
    if ds != [] {
      assert ([d] + ds)[..|[d] + ds| - 1] == [d] + ds[..|ds| - 1];
      DefinitionBytesCons(d, ds[..|ds| - 1]);
    } else {
      assert ([d] + ds)[..|[d] + ds| - 1] == [];
    }
  }

  /** A definition's fields fit their widths: 12-bit reference, 4-bit SCIdS, 6-bit sub-channel id or 12-bit SCId. */
  predicate DefinitionInRange(d: GlobalDefinition)
  {
    d.reference < 4096 && d.scids < 16 && (if d.ShortDefinition? then d.subchId < 64 else d.scid < 4096)
  }

  /**
   * The FIG 0/8 loop decodes at least one definition, the first at counter
   * c; every definition has its fields in range and takes 5 bytes in the
   * short form or 6 in the long form; and the loop stops once 1 + the bytes
   * consumed reach the length, after going on while they were below it.
   */
  lemma {:induction false} DefinitionsShape(data: seq<byte>, length: nat, c: nat)
    requires Definitions(data, length, c).Some?
    ensures var ds := Definitions(data, length, c).value;
      && |ds| >= 1 && Some(ds[0]) == DefinitionAt(data, c)
      && (forall k :: 0 <= k < |ds| ==> DefinitionInRange(ds[k]) && ds[k].Bytes() == (if ds[k].ShortDefinition? then 5 else 6))
      && 1 + c + DefinitionBytes(ds) >= length
      && (|ds| > 1 ==> 1 + c + DefinitionBytes(ds[..|ds| - 1]) < length)
    decreases length - c
  {
    var d := DefinitionAt(data, c).value;
    var ds := Definitions(data, length, c).value;
    if 1 + c + d.Bytes() < length {
      var rest := Definitions(data, length, c + d.Bytes()).value;
      DefinitionsShape(data, length, c + d.Bytes());
      assert ds == [d] + rest;
      DefinitionBytesCons(d, rest);
      if |rest| > 1 {
        DefinitionBytesCons(d, rest[..|rest| - 1]);
        assert ds[..|ds| - 1] == [d] + rest[..|rest| - 1];
      } else {
        assert ds[..|ds| - 1] == [d];
        DefinitionBytesCons(d, []);
      }
    } else {
      assert ds == [d];
      DefinitionBytesCons(d, []);
    }
  }

  /** The FIG 0/8 do-while loop as the block runs it. */
  method DecodeDefinitions(data: seq<byte>, length: nat) returns (r: Option<seq<GlobalDefinition>>)
    ensures r == Definitions(data, length, 0)
  {
    var counter: nat := 0;
    var definitions: seq<GlobalDefinition> := [];
    PrependNothing(Definitions(data, length, 0));
    while true
      invariant counter == 0 || 1 + counter < length
      invariant Definitions(data, length, 0) == Prepend(definitions, Definitions(data, length, counter))
      decreases length - counter
    {
      var d := DefinitionAt(data, counter);
      if d.None? {
        return None;
      }
      PrependTwice(definitions, [d.value], Definitions(data, length, counter + d.value.Bytes()));
      definitions := definitions + [d.value];
      counter := counter + d.value.Bytes();
      if !(1 + counter < length) {
        return Some(definitions);
      }
    }
  }

  // ---------------------------------------------------------------------
  // process_fig

  /** The debug warnings of a FIG of type 0. */
  datatype Warning = FutureConfiguration | OtherEnsemble | LongIdentifier

  /**
   * The C/N, OE and P/D bits are masked with 0x80, 0x40 and 0x20 but compared
   * with 1, so no warning is ever given (the OE message even tests C/N).
   */
  function Warnings(b: byte): (w: set<Warning>)
    ensures w == {}
  {
    (if b & 0x80 == 1 then {FutureConfiguration} else {})
    + (if b & 0x80 == 1 then {OtherEnsemble} else {})
    + (if b & 0x20 == 1 then {LongIdentifier} else {})
  }

  /** The FIG 0 extensions the block only names in its log (ETSI EN 300 401 numbering). */
  predicate NamedOnly(extension: nat)
  {
    extension in {3, 4, 5, 9, 13, 14, 16, 17, 18, 19}
  }

  datatype MciInfo =
    | EnsembleInformation(info: EnsembleInfo)
    | SubchannelOrganisation(subchannels: seq<Subchannel>)
    | ServiceOrganisation(services: seq<Service>)
    | ComponentDefinitions(definitions: seq<GlobalDefinition>)
    | Named
    | UnsupportedExtension

  /** The number of label characters a FIG 1 or 2 copies. */
  const LabelLength := 16

  /** The FIG 1/2 extensions whose label the block copies: ensemble, programme service, service component, data service. */
  predicate CopiesLabel(extension: nat)
  {
    extension in {0, 1, 4, 5}
  }

  /** Where the copied label starts: data[4] for extensions 0 and 1, data[5] for 4 and 5. */
  function LabelStart(extension: nat): nat
  {
    if extension <= 1 then 4 else 5
  }

  /** What process_fig decodes from one FIG. */
  datatype Fig =
    | Mci(warnings: set<Warning>, extension: nat, info: MciInfo)
    | Label(extension: nat, reference: Option<nat>, text: Option<seq<byte>>)
    | Fidc(extension: nat)
    | ConditionalAccess
    | UnsupportedType(figType: nat)

  /**
   * process_fig on the FIG whose header byte is data[0]; None when a field
   * it reads lies past the input.
   */
  function FigOf(signedChar: bool, figType: nat, data: seq<byte>, length: nat): (r: Option<Fig>)
    ensures r.Some? && figType in {0, 1, 2, 5} ==> |data| > 1
    ensures r.Some? && figType == 0 ==> r.value.Mci? && r.value.warnings == {} && r.value.extension == Field(data[1], 0x1f, 0)
    ensures r.Some? && (figType == 1 || figType == 2) ==> r.value.Label? && r.value.extension == Field(data[1], 0x07, 0)
    ensures (figType == 1 || figType == 2) && |data| > 1 ==>
      (r.None? <==> CopiesLabel(Field(data[1], 0x07, 0)) && |data| < LabelStart(Field(data[1], 0x07, 0)) + LabelLength)
    ensures r.Some? && r.value.Label? ==>
      (figType == 1 || figType == 2)
      && (r.value.text.Some? <==> CopiesLabel(r.value.extension))
      && (r.value.text.Some? ==> |data| >= LabelStart(r.value.extension) + LabelLength)
      && (r.value.reference.Some? <==> r.value.extension == 1)
    ensures r.Some? && r.value.Label? && r.value.reference.Some? ==>
      r.value.reference.value == Word12(data[2], data[3])
    ensures r.Some? && r.value.Label? && r.value.text.Some? ==>
      |r.value.text.value| == LabelLength
      && forall j :: 0 <= j < LabelLength ==> r.value.text.value[j] == data[LabelStart(r.value.extension) + j]
    ensures r.Some? && figType == 5 ==> r.value == Fidc(Field(data[1], 0x07, 0))
    ensures !(figType in {0, 1, 2, 5, 6}) ==> r == Some(UnsupportedType(figType))
  {
    if figType == 0 then
      if |data| <= 1 then None
      else
        var extension := Field(data[1], 0x1f, 0);
        var info :=
          if extension == 0 then
            var e := EnsembleInfoOf(data, signedChar);
            if e.Some? then Some(EnsembleInformation(e.value)) else None
          else if extension == 1 then
            var s := Subchannels(data, length, 0, false);
            if s.Some? then Some(SubchannelOrganisation(s.value)) else None
          else if extension == 2 then
            var s := Services(data, length, 1, false);
            if s.Some? then Some(ServiceOrganisation(s.value)) else None
          else if extension == 8 then
            var d := Definitions(data, length, 0);
            if d.Some? then Some(ComponentDefinitions(d.value)) else None
          else if NamedOnly(extension) then Some(Named)
          else Some(UnsupportedExtension);
        if info.Some? then Some(Mci(Warnings(data[1]), extension, info.value)) else None
    else if figType == 1 || figType == 2 then
      if |data| <= 1 then None
      else
        var extension := Field(data[1], 0x07, 0);
        if !CopiesLabel(extension) then Some(Label(extension, None, None))
        else
          var start := LabelStart(extension);
          if |data| < start + LabelLength then None
          else
            var reference := if extension == 1 then Some(Word12(data[2], data[3])) else None;
            Some(Label(extension, reference, Some(data[start..start + LabelLength])))
    else if figType == 5 then
      if |data| <= 1 then None else Some(Fidc(Field(data[1], 0x07, 0)))
    else if figType == 6 then Some(ConditionalAccess)
    else Some(UnsupportedType(figType))
  }

  /** A label FIG 1 or 2: the sixteen characters placed after its header fields are read back. */
  lemma LabelRoundTrip(signedChar: bool, figType: nat, head: seq<byte>, chars: seq<byte>, rest: seq<byte>, length: nat)
    requires figType == 1 || figType == 2
    requires |head| > 1 && CopiesLabel(Field(head[1], 0x07, 0))
    requires |head| == LabelStart(Field(head[1], 0x07, 0))
    requires |chars| == LabelLength
    ensures var extension := Field(head[1], 0x07, 0);
            FigOf(signedChar, figType, head + chars + rest, length)
            == Some(Label(extension, if extension == 1 then Some(Word12(head[2], head[3])) else None, Some(chars)))
  {
    var data := head + chars + rest;
    assert data[|head|..|head| + LabelLength] == chars;
  }

  /** process_fig: the switch on the FIG type and, for type 0, on the extension. */
  method ProcessFig(signedChar: bool, figType: nat, data: seq<byte>, length: nat) returns (r: Option<Fig>)
    ensures r == FigOf(signedChar, figType, data, length)
  {
    if figType == 0 {
      if |data| <= 1 {
        return None;
      }
      var extension := Field(data[1], 0x1f, 0);
      var info: Option<MciInfo>;
      if extension == 0 {
        var e := EnsembleInfoOf(data, signedChar);
        info := if e.Some? then Some(EnsembleInformation(e.value)) else None;
      } else if extension == 1 {
        var s := DecodeSubchannels(data, length);
        info := if s.Some? then Some(SubchannelOrganisation(s.value)) else None;
      } else if extension == 2 {
        var s := DecodeServices(data, length);
        info := if s.Some? then Some(ServiceOrganisation(s.value)) else None;
      } else if extension == 8 {
        var d := DecodeDefinitions(data, length);
        info := if d.Some? then Some(ComponentDefinitions(d.value)) else None;
      } else if NamedOnly(extension) {
        info := Some(Named);
      } else {
        info := Some(UnsupportedExtension);
      }
      r := if info.Some? then Some(Mci(Warnings(data[1]), extension, info.value)) else None;
    } else if figType == 1 || figType == 2 {
      if |data| <= 1 {
        return None;
      }
      var extension := Field(data[1], 0x07, 0);
      if !CopiesLabel(extension) {
        r := Some(Label(extension, None, None));
      } else {
        var start := LabelStart(extension);
        if |data| < start + LabelLength {
          return None;
        }
        var reference := if extension == 1 then Some(Word12(data[2], data[3])) else None;
        r := Some(Label(extension, reference, Some(data[start..start + LabelLength])));
      }
    } else if figType == 5 {
      r := if |data| <= 1 then None else Some(Fidc(Field(data[1], 0x07, 0)));
    } else if figType == 6 {
      r := Some(ConditionalAccess);
    } else {
      r := Some(UnsupportedType(figType));
    }
  }

  // ---------------------------------------------------------------------
  // process_fib and work

  /** A FIG the walk met: where its header byte is, and the type and length it gives. */
  datatype FigEntry = FigEntry(pos: nat, figType: nat, length: nat)

  /** The FIGs walked, whether an assert aborted the walk, and the position where it stopped. */
  datatype Walk = Walk(figs: seq<FigEntry>, aborted: bool, stop: nat)

  /** Whether the walk stops at pos: past the data field, or at an end marker or a zero header. */
  predicate WalkEnds(fib: seq<byte>, pos: nat)
    requires |fib| >= FibLength
  {
    pos >= FibDataLength || fib[pos] == FibEndMarker || fib[pos] == 0
  }

  /** The while loop of process_fib from pos; fib holds the FIB and the rest of the input after it. */
  function WalkFrom(cfg: Config, fib: seq<byte>, pos: nat): Walk
    requires |fib| >= FibLength
    decreases FibDataLength - pos
  {
    if WalkEnds(fib, pos) then Walk([], false, pos)
    else
      var figType, length := FigType(fib[pos], cfg.signedChar), FigLength(fib[pos]);
      if cfg.assertsEnabled && !(pos + length <= FibDataLength && length != 0) then Walk([], true, pos)
      else
        var rest := WalkFrom(cfg, fib, pos + length + 1);
        Walk([FigEntry(pos, figType, length)] + rest.figs, rest.aborted, rest.stop)
  }

  /** process_fig on the FIG the walk met at e. */
  function Decoded(cfg: Config, fib: seq<byte>, e: FigEntry): Option<Fig>
  {
    if e.pos <= |fib| then FigOf(cfg.signedChar, e.figType, fib[e.pos..], e.length) else None
  }

  /** Where the walk goes after the FIG at entry e: past its header and data. */
  function After(e: FigEntry): nat
  {
    e.pos + e.length + 1
  }

  /**
   * The walk from pos meets its FIGs back to back: the first at pos, each
   * next one right after the data of the one before, each read from a
   * header byte that does not end the walk; it stops (or aborts) right after
   * the last one, at most 30 FIGs later.
   */
  lemma {:induction false} WalkChained(cfg: Config, fib: seq<byte>, pos: nat)
    requires |fib| >= FibLength
    ensures var w := WalkFrom(cfg, fib, pos);
      (|w.figs| > 0 ==> w.figs[0].pos == pos && w.stop == After(w.figs[|w.figs| - 1]))
      && (|w.figs| == 0 ==> w.stop == pos)
      && (forall k :: 0 < k < |w.figs| ==> w.figs[k].pos == After(w.figs[k - 1]))
      && (forall k :: 0 <= k < |w.figs| ==>
            !WalkEnds(fib, w.figs[k].pos) && w.figs[k].length == FigLength(fib[w.figs[k].pos])
            && w.figs[k].figType == FigType(fib[w.figs[k].pos], cfg.signedChar))
      && (w.figs == [] || pos + |w.figs| <= FibDataLength)
    decreases FibDataLength - pos
  {
    if !WalkEnds(fib, pos) {
      var length := FigLength(fib[pos]);
      if !(cfg.assertsEnabled && !(pos + length <= FibDataLength && length != 0)) {
        var next := pos + length + 1;
        WalkChained(cfg, fib, next);
        var rest := WalkFrom(cfg, fib, next);
        var e := FigEntry(pos, FigType(fib[pos], cfg.signedChar), length);
        var figs := [e] + rest.figs;
        assert WalkFrom(cfg, fib, pos) == Walk(figs, rest.aborted, rest.stop);
        assert After(e) == next;
        assert forall k :: 0 < k < |figs| ==> figs[k] == rest.figs[k - 1];
      }
    }
  }

  /**
   * A walk that was not aborted stopped at a position past the data field or
   * holding the end marker or 0; an aborted one stopped at a header whose FIG
   * would leave the data field or is empty, and only with the asserts in.
   */
  lemma {:induction false} WalkStops(cfg: Config, fib: seq<byte>, pos: nat)
    requires |fib| >= FibLength
    ensures var w := WalkFrom(cfg, fib, pos);
      (!w.aborted ==> WalkEnds(fib, w.stop))
      && (w.aborted ==> cfg.assertsEnabled && !WalkEnds(fib, w.stop)
                        && (w.stop + FigLength(fib[w.stop]) > FibDataLength || FigLength(fib[w.stop]) == 0))
    decreases FibDataLength - pos
  {
    if !WalkEnds(fib, pos) {
      var length := FigLength(fib[pos]);
      if !(cfg.assertsEnabled && !(pos + length <= FibDataLength && length != 0)) {
        WalkStops(cfg, fib, pos + length + 1);
      }
    }
  }

  /**
   * With the asserts compiled in, every FIG the walk decodes is not empty and
   * lies, header and data, inside the data field.
   */
  lemma {:induction false} WalkInside(cfg: Config, fib: seq<byte>, pos: nat)
    requires |fib| >= FibLength && cfg.assertsEnabled
    ensures forall e <- WalkFrom(cfg, fib, pos).figs :: 1 <= e.length && e.pos + e.length <= FibDataLength
    decreases FibDataLength - pos
  {
    if !WalkEnds(fib, pos) {
      var length := FigLength(fib[pos]);
      if pos + length <= FibDataLength && length != 0 {
        WalkInside(cfg, fib, pos + length + 1);
      }
    }
  }

  /** What process_fib does with one FIB: its return value, the walk, and what each FIG walked decodes to. */
  datatype FibOutcome = FibOutcome(code: int, walk: Walk, figs: seq<Option<Fig>>)

  /**
   * process_fib: a CRC failure returns 1 without walking; otherwise the FIGs
   * are walked, each is decoded, and 0 is returned.
   */
  function Fib(cfg: Config, fib: seq<byte>): (r: FibOutcome)
    requires |fib| >= FibLength
    ensures r.code == 1 <==> !cfg.crcPasses(fib[..FibLength])
    ensures r.code == 1 ==> r.walk == Walk([], false, 0) && r.figs == []
    ensures r.code != 1 ==> r.code == 0 && r.walk == WalkFrom(cfg, fib, 0)
    ensures |r.figs| == |r.walk.figs| && forall k :: 0 <= k < |r.figs| ==> r.figs[k] == Decoded(cfg, fib, r.walk.figs[k])
  {
    if !cfg.crcPasses(fib[..FibLength]) then FibOutcome(1, Walk([], false, 0), [])
    else
      var w := WalkFrom(cfg, fib, 0);
      FibOutcome(0, w, seq(|w.figs|, k requires 0 <= k < |w.figs| => Decoded(cfg, fib, w.figs[k])))
  }

  /**
   * One turn of the walk: a FIG that neither ends nor aborts it is followed
   * by the walk after it, so the FIGs met so far followed by the walk from
   * pos are the FIGs met one step later followed by the walk from there.
   */
  lemma WalkStep(cfg: Config, fib: seq<byte>, pos: nat, entries: seq<FigEntry>)
    requires |fib| >= FibLength && !WalkEnds(fib, pos)
    requires var length := FigLength(fib[pos]);
      !(cfg.assertsEnabled && !(pos + length <= FibDataLength && length != 0))
    ensures var e := FigEntry(pos, FigType(fib[pos], cfg.signedChar), FigLength(fib[pos]));
      var w, rest := WalkFrom(cfg, fib, pos), WalkFrom(cfg, fib, After(e));
      w == Walk([e] + rest.figs, rest.aborted, rest.stop) && entries + w.figs == (entries + [e]) + rest.figs
  {
    var e := FigEntry(pos, FigType(fib[pos], cfg.signedChar), FigLength(fib[pos]));
    assert entries + ([e] + WalkFrom(cfg, fib, After(e)).figs) == (entries + [e]) + WalkFrom(cfg, fib, After(e)).figs;
  }

  /** The call of process_fig on the FIG at e. */
  method DecodeFig(cfg: Config, fib: seq<byte>, e: FigEntry) returns (fig: Option<Fig>)
    requires e.pos <= |fib|
    ensures fig == Decoded(cfg, fib, e)
  {
    fig := ProcessFig(cfg.signedChar, e.figType, fib[e.pos..], e.length);
  }

  /**
   * process_fib: the CRC check, then the walk over the FIG headers and the
   * call of process_fig on each FIG met.
   */
  method ProcessFib(cfg: Config, fib: seq<byte>) returns (code: int, walk: Walk, figs: seq<Option<Fig>>)
    requires |fib| >= FibLength
    ensures FibOutcome(code, walk, figs) == Fib(cfg, fib)
  {
    if !cfg.crcPasses(fib[..FibLength]) {
      return 1, Walk([], false, 0), [];
    }
    walk := WalkHeaders(cfg, fib);
    WalkChained(cfg, fib, 0);
    figs := [];
    for k := 0 to |walk.figs|
      invariant |figs| == k && forall j :: 0 <= j < k ==> figs[j] == Decoded(cfg, fib, walk.figs[j])
    {
      var fig := DecodeFig(cfg, fib, walk.figs[k]);
      figs := figs + [fig];
    }
    code := 0;
  }

  /** The walk from pos with the FIGs met before it in acc: the loop's own state. */
  function WalkOn(cfg: Config, fib: seq<byte>, pos: nat, acc: seq<FigEntry>): Walk
    requires |fib| >= FibLength
    decreases FibDataLength - pos
  {
    if WalkEnds(fib, pos) then Walk(acc, false, pos)
    else
      var figType, length := FigType(fib[pos], cfg.signedChar), FigLength(fib[pos]);
      if cfg.assertsEnabled && !(pos + length <= FibDataLength && length != 0) then Walk(acc, true, pos)
      else WalkOn(cfg, fib, pos + length + 1, acc + [FigEntry(pos, figType, length)])
  }

  /** Walking on from pos after acc meets acc and then the walk from pos. */
  lemma {:induction false} WalkOnFrom(cfg: Config, fib: seq<byte>, pos: nat, acc: seq<FigEntry>)
    requires |fib| >= FibLength
    ensures var w := WalkFrom(cfg, fib, pos); WalkOn(cfg, fib, pos, acc) == Walk(acc + w.figs, w.aborted, w.stop)
    decreases FibDataLength - pos
  {
    if !WalkEnds(fib, pos) {
      var length := FigLength(fib[pos]);
      if !(cfg.assertsEnabled && !(pos + length <= FibDataLength && length != 0)) {
        var e := FigEntry(pos, FigType(fib[pos], cfg.signedChar), length);
        WalkOnFrom(cfg, fib, pos + length + 1, acc + [e]);
        WalkStep(cfg, fib, pos, acc);
      }
    } else {
      assert acc + [] == acc;
    }
  }

  /** The while loop of process_fib over the FIG headers. */
  method WalkHeaders(cfg: Config, fib: seq<byte>) returns (walk: Walk)
    requires |fib| >= FibLength
    ensures walk == WalkFrom(cfg, fib, 0)
  {
    var pos: nat := 0;
    var entries: seq<FigEntry> := [];
    WalkOnFrom(cfg, fib, 0, []);
    assert [] + WalkFrom(cfg, fib, 0).figs == WalkFrom(cfg, fib, 0).figs;
    while !WalkEnds(fib, pos)
      invariant WalkOn(cfg, fib, pos, entries) == WalkFrom(cfg, fib, 0)
      decreases FibDataLength - pos
    {
      var figType, length := FigType(fib[pos], cfg.signedChar), FigLength(fib[pos]);
      if cfg.assertsEnabled && !(pos + length <= FibDataLength && length != 0) {
        return Walk(entries, true, pos);
      }
      entries := entries + [FigEntry(pos, figType, length)];
      pos := pos + length + 1;
    }
    walk := Walk(entries, false, pos);
  }

  /**
   * work: FIB i of the call is bytes 32i .. of the input, each is processed
   * in order, and all noutput_items are consumed.
   */
  method Work(cfg: Config, input: seq<byte>, noutput: nat) returns (results: seq<FibOutcome>, consumed: nat)
    requires |input| >= FibLength * noutput
    ensures |results| == noutput && consumed == noutput
    ensures forall i :: 0 <= i < noutput ==> FibLength * i + FibLength <= |input|
                                             && results[i] == Fib(cfg, input[FibLength * i..])
  {
    results := [];
    for i := 0 to noutput
      invariant |results| == i
      invariant forall k :: 0 <= k < i ==> FibLength * k + FibLength <= |input|
                                           && results[k] == Fib(cfg, input[FibLength * k..])
    {
      assert FibLength * i + FibLength <= FibLength * noutput;
      var code, walk, figs := ProcessFib(cfg, input[FibLength * i..]);
      results := results + [FibOutcome(code, walk, figs)];
    }
    consumed := noutput;
  }
}
