/**
 * The DAB+ audio superframe decoder (mp4_decode_bs): the superframe header
 * and its table of access-unit (AU) start addresses (ETSI TS 102 563,
 * clause 5.2), the CRC-16 of ETSI EN 300 401 that guards every AU, the
 * AudioSpecificConfig handed to the AAC decoder, the X-PAD content
 * indicators of the programme-associated data carried in an AU (ETSI EN 300
 * 401, clause 7.4) and the dynamic-label segment header.
 *
 * The AAC decoder itself (faad2) is outside the model, and so are the PCM
 * samples it produces for an AU and their count.
 */
module Mp4DecodeBs {
  import opened Signal
  import Congruential

  // ---------------------------------------------------------------------
  // CRC-16 (ETSI EN 300 401): generator 0x1021, register preset to 0xFFFF,
  // message bits taken most significant first, check word complemented.

  const Generator: bv16 := 0x1021

  /** One step of the inner loop: the register shifts, and takes the generator when its top bit differs from the data's. */
  function CrcShift(acc: bv16, data: bv16): bv16
  {
    if (data ^ acc) & 0x8000 != 0 then (acc << 1) ^ Generator else acc << 1
  }

  /** The inner loop with j turns left, data holding the byte's remaining bits at its top. */
  function CrcBits(acc: bv16, data: bv16, j: nat): bv16
    decreases j
  {
    if j == 0 then acc else CrcBits(CrcShift(acc, data), data << 1, j - 1)
  }

  /** The register after one more message byte. */
  function CrcByte(acc: bv16, b: byte): bv16
  {
    CrcBits(acc, (b as bv16) << 8, 8)
  }

  /** The register after the whole message, from the preset 0xFFFF. */
  function Crc(msg: seq<byte>): bv16
  {
    if |msg| == 0 then 0xffff else CrcByte(Crc(msg[..|msg| - 1]), msg[|msg| - 1])
  }

  /** The two big-endian bytes that follow the data word. */
  function CheckWord(msg: seq<byte>, len: nat): bv16
    requires len + 2 <= |msg|
  {
    (msg[len] as bv16 << 8) | msg[len + 1] as bv16
  }

  /** The final test of crc16: the complement of the stored word (`~`, an xor with 0xFFFF), xor the register, is zero. */
  predicate WordMatches(word: bv16, register: bv16)
  {
    (word ^ 0xffff) ^ register == 0
  }

  /** crc16(msg, len): the check word after the first len bytes matches their register. */
  predicate CrcPasses(msg: seq<byte>, len: nat)
    requires len + 2 <= |msg|
  {
    WordMatches(CheckWord(msg, len), Crc(msg[..len]))
  }

  /** The check word a sender appends: the complemented register, high byte first. */
  function CrcTrailer(data: seq<byte>): (t: seq<byte>)
    ensures |t| == 2
  {
    var c := Crc(data) ^ 0xffff;
    [(c >> 8) as byte, (c & 0xff) as byte]
  }

  /** The check passes exactly when the stored word is the complement of the register. */
  lemma CrcPassesMeaning(msg: seq<byte>, len: nat)
    requires len + 2 <= |msg|
    ensures CrcPasses(msg, len) ==> CheckWord(msg, len) == Crc(msg[..len]) ^ 0xffff
    ensures CheckWord(msg, len) == Crc(msg[..len]) ^ 0xffff ==> CrcPasses(msg, len)
  {
  }

  /** Joining the two bytes of a word gives the word back. */
  lemma JoinSplit(c: bv16)
    ensures ((((c >> 8) as byte) as bv16) << 8) | (((c & 0xff) as byte) as bv16) == c
  {
  }

  /** Splitting a word joined from two bytes gives the bytes back. */
  lemma SplitJoin(hi: byte, lo: byte)
    ensures ((((hi as bv16) << 8) | lo as bv16) >> 8) as byte == hi
    ensures ((((hi as bv16) << 8) | lo as bv16) & 0xff) as byte == lo
  {
  }

  /** The check word of data followed by two bytes is those two bytes. */
  lemma CheckWordAfter(data: seq<byte>, hi: byte, lo: byte)
    ensures (data + [hi, lo])[..|data|] == data
    ensures CheckWord(data + [hi, lo], |data|) == ((hi as bv16) << 8) | lo as bv16
  {
    assert (data + [hi, lo])[..|data|] == data;
  }

  /** Round trip: data followed by its trailer passes the check. */
  lemma CrcRoundTrip(data: seq<byte>)
    ensures CrcPasses(data + CrcTrailer(data), |data|)
  {
    var c := Crc(data) ^ 0xffff;
    var hi, lo := (c >> 8) as byte, (c & 0xff) as byte;
    assert CrcTrailer(data) == [hi, lo];
    CheckWordAfter(data, hi, lo);
    JoinSplit(c);
    CrcPassesMeaning(data + [hi, lo], |data|);
  }

  /** And no other two bytes after the data pass it. */
  lemma CrcTrailerUnique(data: seq<byte>, hi: byte, lo: byte)
    requires CrcPasses(data + [hi, lo], |data|)
    ensures [hi, lo] == CrcTrailer(data)
  {
    CheckWordAfter(data, hi, lo);
    CrcPassesMeaning(data + [hi, lo], |data|);
    SplitJoin(hi, lo);
  }

  /** The inner loop of crc16: eight shifts for the bits of one byte. */
  method CrcByteLoop(accumulator: bv16, b: byte) returns (acc: bv16)
    ensures acc == CrcByte(accumulator, b)
  {
    acc := accumulator;
    var data: bv16 := (b as bv16) << 8;
    var j := 8;
    while j > 0
      invariant j <= 8 && CrcBits(acc, data, j) == CrcByte(accumulator, b)
    {
      acc := CrcShift(acc, data);
      data := data << 1;
      j := j - 1;
    }
  }

  /** crc16 with its two loops over the bytes and over the bits of each byte. */
  method Crc16(msg: seq<byte>, len: nat) returns (ok: bool)
    requires len + 2 <= |msg|
    ensures ok ==> CrcPasses(msg, len)
    ensures CrcPasses(msg, len) ==> ok
  {
    var accumulator: bv16 := 0xffff;
    for i := 0 to len
      invariant accumulator == Crc(msg[..i])
    {
      accumulator := CrcByteLoop(accumulator, msg[i]);
      assert msg[..i + 1][..i] == msg[..i];
    }
    var word := (msg[len] as bv16 << 8) | msg[len + 1] as bv16;
    ok := WordMatches(word, accumulator);
  }

  // ---------------------------------------------------------------------
  // BinToDec: a big-endian bit field of at most 16 bits.

  /** x shifted right by s bits (an unsigned `>>`): halved s times. */
  function Shr(x: nat, s: nat): nat
  {
    if s == 0 then x else Shr(x, s - 1) / 2
  }

  /** x masked with 2^n - 1 (an `&` with n one bits): its n low bits, built up from the lowest. */
  function Low(x: nat, n: nat): nat
  {
    if n == 0 then 0 else 2 * Low(x / 2, n - 1) + x % 2
  }

  /** The three bytes from o as one big-endian 24-bit number. */
  function Window(data: seq<byte>, o: nat): nat
    requires o + 2 < |data|
  {
    data[o] as nat * 65536 + data[o + 1] as nat * 256 + data[o + 2] as nat
  }

  /**
   * BinToDec(data, offset, length): the three bytes from offset / 8 as one
   * 24-bit number, shifted right so that the field ends at bit 0, then
   * masked with 0xFFFF >> (16 - length), which keeps its low `length` bits.
   */
  function BinToDec(data: seq<byte>, offset: nat, length: nat): nat
    requires length <= 16 && offset / 8 + 2 < |data|
  {
    Low(Shr(Window(data, offset / 8), 24 - length - offset % 8), length)
  }

  /** The n low bits of x, most significant first. */
  function BitsOf(x: nat, n: nat): (bs: seq<nat>)
    ensures |bs| == n
  {
    if n == 0 then [] else var b: nat := x % 2; BitsOf(x / 2, n - 1) + [b]
  }

  /** Every entry is 0 or 1. */
  predicate AllBits(bs: seq<nat>)
  {
    forall i :: 0 <= i < |bs| ==> bs[i] < 2
  }

  /** The value of a bit string, most significant bit first. */
  function Value(bs: seq<nat>): nat
  {
    if bs == [] then 0 else 2 * Value(bs[..|bs| - 1]) + bs[|bs| - 1] % 2
  }

  /** Bit k of a byte stream, counting from the most significant bit of data[0]. */
  function Bit(data: seq<byte>, k: nat): nat
    requires k / 8 < |data|
  {
    BitsOf(data[k / 8] as nat, 8)[k % 8]
  }

  /** The bits [offset, offset + length) of the stream, most significant first. */
  function BitField(data: seq<byte>, offset: nat, length: nat): (bs: seq<nat>)
    requires length == 0 || (offset + length - 1) / 8 < |data|
    ensures |bs| == length
  {
    seq<nat>(length, i requires 0 <= i < length => Bit(data, offset + i))
  }

  lemma {:induction false} ValueBound(bs: seq<nat>)
    ensures Value(bs) < Congruential.Pow2(|bs|)
  {
    if bs != [] {
      ValueBound(bs[..|bs| - 1]);
    }
  }

  /** The bits BitsOf lists are the low bits of x. */
  lemma {:induction false} ValueBitsOf(x: nat, n: nat)
    ensures Value(BitsOf(x, n)) == Low(x, n)
    ensures AllBits(BitsOf(x, n))
  {
    if n > 0 {
      ValueBitsOf(x / 2, n - 1);
      var bs := BitsOf(x, n);
      assert bs[..n - 1] == BitsOf(x / 2, n - 1);
    }
  }

  /** A number below 2^n is its own n low bits. */
  lemma {:induction false} LowSmall(x: nat, n: nat)
    requires x < Congruential.Pow2(n)
    ensures Low(x, n) == x
  {
    if n > 0 {
      LowSmall(x / 2, n - 1);
    }
  }

  /** Shifting a bit string's value right by k drops its last k bits. */
  lemma {:induction false} ShrValue(bs: seq<nat>, k: nat)
    requires k <= |bs|
    ensures Shr(Value(bs), k) == Value(bs[..|bs| - k])
  {
    if k > 0 {
      ShrValue(bs, k - 1);
      var c := bs[..|bs| - (k - 1)];
      assert c[..|c| - 1] == bs[..|bs| - k];
    } else {
      assert bs[..|bs|] == bs;
    }
  }

  /** The m low bits of a bit string's value are its last m bits. */
  lemma {:induction false} LowValue(bs: seq<nat>, m: nat)
    requires m <= |bs| && AllBits(bs)
    ensures Low(Value(bs), m) == Value(bs[|bs| - m..])
  {
    if m > 0 {
      var c, last := bs[..|bs| - 1], bs[|bs| - 1];
      assert AllBits(c) && last < 2;
      assert Value(bs) == 2 * Value(c) + last;
      DivUnique(Value(bs), 2, Value(c), last);
      LowValue(c, m - 1);
      var t := bs[|bs| - m..];
      assert t[..|t| - 1] == c[|c| - (m - 1)..] && t[|t| - 1] == last;
      assert Value(t) == 2 * Value(c[|c| - (m - 1)..]) + last;
    }
  }

  /** The value of a concatenation. */
  lemma {:induction false} ValueAppend(a: seq<nat>, b: seq<nat>)
    ensures Value(a + b) == Value(a) * Congruential.Pow2(|b|) + Value(b)
  {
    if b != [] {
      var b', last := b[..|b| - 1], b[|b| - 1];
      var va, vb', p := Value(a), Value(b'), Congruential.Pow2(|b'|);
      assert Value(a + b') == va * p + vb' by {
        ValueAppend(a, b');
      }
      assert Value(a + b) == 2 * Value(a + b') + last % 2 by {
        assert (a + b)[..|a + b| - 1] == a + b';
      }
      assert Value(b) == 2 * vb' + last % 2;
      assert Congruential.Pow2(|b|) == 2 * p;
      MulTwice(va, p);
    } else {
      assert a + b == a;
    }
  }

  lemma MulTwice(x: nat, p: nat)
    ensures x * (2 * p) == 2 * (x * p)
  {
  }

  /** The 24 bits of three bytes, most significant first. */
  function Bits3(d0: nat, d1: nat, d2: nat): (w: seq<nat>)
    ensures |w| == 24
  {
    BitsOf(d0, 8) + BitsOf(d1, 8) + BitsOf(d2, 8)
  }

  /** The value of the 8 bits of a byte is the byte. */
  lemma ByteValue(d: nat)
    requires d < 256
    ensures Value(BitsOf(d, 8)) == d && AllBits(BitsOf(d, 8))
  {
    ValueBitsOf(d, 8);
    assert Congruential.Pow2(8) == 256;
    LowSmall(d, 8);
  }

  /** The window's bits are bits, and their value is the big-endian number of the three bytes. */
  lemma Bits3Value(d0: nat, d1: nat, d2: nat)
    requires d0 < 256 && d1 < 256 && d2 < 256
    ensures AllBits(Bits3(d0, d1, d2))
    ensures Value(Bits3(d0, d1, d2)) == d0 * 65536 + d1 * 256 + d2
  {
    var b0, b1, b2 := BitsOf(d0, 8), BitsOf(d1, 8), BitsOf(d2, 8);
    ByteValue(d0);
    ByteValue(d1);
    ByteValue(d2);
    var w := Bits3(d0, d1, d2);
    forall i | 0 <= i < 24
      ensures w[i] < 2
    {
      if i < 8 {
        assert w[i] == b0[i];
      } else if i < 16 {
        assert w[i] == b1[i - 8];
      } else {
        assert w[i] == b2[i - 16];
      }
    }
    assert Congruential.Pow2(8) == 256;
    var v01 := Value(b0 + b1);
    assert v01 == d0 * 256 + d1 by {
      ValueAppend(b0, b1);
    }
    assert Value(w) == v01 * 256 + d2 by {
      ValueAppend(b0 + b1, b2);
    }
  }

  /** Bit k of the window at byte o is bit 8o + k of the stream. */
  lemma WindowBit(data: seq<byte>, o: nat, k: nat)
    requires o + 2 < |data| && k < 24
    ensures Bits3(data[o] as nat, data[o + 1] as nat, data[o + 2] as nat)[k] == Bit(data, 8 * o + k)
  {
    var d0, d1, d2 := data[o] as nat, data[o + 1] as nat, data[o + 2] as nat;
    var w := Bits3(d0, d1, d2);
    if k < 8 {
      assert (8 * o + k) / 8 == o && (8 * o + k) % 8 == k;
      assert w[k] == BitsOf(d0, 8)[k];
    } else if k < 16 {
      assert (8 * o + k) / 8 == o + 1 && (8 * o + k) % 8 == k - 8;
      assert w[k] == BitsOf(d1, 8)[k - 8];
    } else {
      assert (8 * o + k) / 8 == o + 2 && (8 * o + k) % 8 == k - 16;
      assert w[k] == BitsOf(d2, 8)[k - 16];
    }
  }

  /** Bits offset % 8 .. offset % 8 + length of the window at byte offset / 8 are the field at offset. */
  lemma WindowField(data: seq<byte>, offset: nat, length: nat)
    requires offset / 8 + 2 < |data| && offset % 8 + length <= 24
    ensures var o, r := offset / 8, offset % 8;
      Bits3(data[o] as nat, data[o + 1] as nat, data[o + 2] as nat)[r..r + length] == BitField(data, offset, length)
  {
    var o, r := offset / 8, offset % 8;
    var w := Bits3(data[o] as nat, data[o + 1] as nat, data[o + 2] as nat);
    forall i | 0 <= i < length
      ensures w[r..r + length][i] == BitField(data, offset, length)[i]
    {
      WindowBit(data, o, r + i);
      assert offset + i == 8 * o + (r + i);
    }
  }

  /**
   * Shifting a 24-bit window right past the bits after r + length and
   * keeping length bits leaves the bits [r, r + length).
   */
  lemma ShiftMaskValue(w: seq<nat>, window: nat, r: nat, length: nat)
    requires |w| == 24 && AllBits(w) && Value(w) == window && r + length <= 24
    ensures Low(Shr(window, 24 - length - r), length) == Value(w[r..r + length])
  {
    var head := w[..r + length];
    assert Shr(window, 24 - length - r) == Value(head) by {
      ShrValue(w, 24 - length - r);
    }
    assert AllBits(head);
    assert head[r..] == w[r..r + length];
    LowValue(head, length);
  }

  /** BinToDec unfolded: the window, shifted and masked. */
  lemma BinToDecWindow(data: seq<byte>, offset: nat, length: nat)
    requires length <= 16 && offset / 8 + 2 < |data|
    ensures BinToDec(data, offset, length) == Low(Shr(Window(data, offset / 8), 24 - length - offset % 8), length)
  {
  }

  /**
   * For a field of at most 16 bits, BinToDec returns the value of the bits
   * [offset, offset + length) of the stream, most significant first, and so
   * less than 2^length.
   */
  lemma BinToDecReadsField(data: seq<byte>, offset: nat, length: nat)
    requires length <= 16 && offset / 8 + 2 < |data|
    ensures BinToDec(data, offset, length) == Value(BitField(data, offset, length))
    ensures BinToDec(data, offset, length) < Congruential.Pow2(length)
  {
    var o, r := offset / 8, offset % 8;
    WindowLow(data, offset, length);
    WindowField(data, offset, length);
    ValueBound(Bits3(data[o] as nat, data[o + 1] as nat, data[o + 2] as nat)[r..r + length]);
  }

  /** BinToDec is the value of the window bits offset % 8 .. offset % 8 + length. */
  lemma WindowLow(data: seq<byte>, offset: nat, length: nat)
    requires length <= 16 && offset / 8 + 2 < |data|
    ensures var o, r := offset / 8, offset % 8;
      BinToDec(data, offset, length) == Value(Bits3(data[o] as nat, data[o + 1] as nat, data[o + 2] as nat)[r..r + length])
  {
    var o, r := offset / 8, offset % 8;
    var d0, d1, d2 := data[o] as nat, data[o + 1] as nat, data[o + 2] as nat;
    var w := Bits3(d0, d1, d2);
    Bits3Value(d0, d1, d2);
    ShiftMaskValue(w, Window(data, o), r, length);
    BinToDecWindow(data, offset, length);
  }

  // ---------------------------------------------------------------------
  // The AAC decoder configuration

  /** get_aac_channel_configuration: the AAC channel configuration for an MPEG Surround mode, or -1. */
  function ChannelConfiguration(mpegSurround: int, aacChannelMode: nat): int
  {
    if mpegSurround == 0 then (if aacChannelMode != 0 then 2 else 1)
    else if mpegSurround == 1 then 6
    else if mpegSurround == 2 then 7
    else -1
  }

  /**
   * Without MPEG Surround the channel mode picks mono (1) or stereo (2);
   * 5.1 and 7.1 surround give 6 and 7; any other mode is unrecognised.
   */
  lemma ChannelConfigurations(mpegSurround: int, aacChannelMode: nat)
    ensures var ch := ChannelConfiguration(mpegSurround, aacChannelMode);
      (ch == -1 <==> !(0 <= mpegSurround <= 2))
      && (ch != -1 ==> ch in {1, 2, 6, 7})
      && (mpegSurround == 0 ==> (ch == 2 <==> aacChannelMode != 0))
  {
  }

  /** The core sampling-frequency index of the AAC decoder: 24, 48, 16 or 32 kHz. */
  function CoreSampleRateIndex(dacRate: nat, sbrFlag: nat): nat
  {
    if dacRate != 0 then (if sbrFlag != 0 then 6 else 3) else (if sbrFlag != 0 then 8 else 5)
  }

  /** The sampling frequencies of those indices in the table of ISO/IEC 14496-3. */
  function SampleRate(index: nat): nat
  {
    if index == 3 then 48000 else if index == 5 then 32000 else if index == 6 then 24000 else if index == 8 then 16000 else 0
  }

  /**
   * The DAC rate flag fixes the audio sampling rate at 48 or 32 kHz; with
   * SBR the AAC core runs at half of it, without SBR at all of it.
   */
  lemma CoreRateHalvedBySbr(dacRate: nat, sbrFlag: nat)
    ensures var rate := SampleRate(CoreSampleRateIndex(dacRate, sbrFlag));
      rate * (if sbrFlag != 0 then 2 else 1) == (if dacRate != 0 then 48000 else 32000)
  {
  }

  /**
   * The two AudioSpecificConfig bytes initialize builds: object type 2 (AAC
   * LC) in 5 bits, the sampling-frequency index in 4, the channel
   * configuration in 4, and 0b100 (960-sample frames). None when the
   * channel configuration is unrecognised.
   */
  function AudioSpecificConfig(dacRate: nat, sbrFlag: nat, mpegSurround: int, aacChannelMode: nat): Option<seq<byte>>
  {
    var sr := CoreSampleRateIndex(dacRate, sbrFlag) as bv8;
    var ch := ChannelConfiguration(mpegSurround, aacChannelMode);
    if ch == -1 then None
    else
      assert 0 <= ch < 8;
      Some([0x10 | (sr >> 1), ((sr & 0x01) << 7) | ((ch as bv8) << 3) | 0x04])
  }

  /** The fields an AAC decoder reads back from a two-byte AudioSpecificConfig. */
  datatype AscFields = AscFields(objectType: nat, sampleRateIndex: nat, channelConfiguration: nat, frameLengthBits: nat)

  function ParseAsc(asc: seq<byte>): AscFields
    requires |asc| == 2
  {
    AscFields((asc[0] >> 3) as nat, (((asc[0] & 0x07) << 1) | (asc[1] >> 7)) as nat,
              ((asc[1] >> 3) & 0x0f) as nat, (asc[1] & 0x07) as nat)
  }

  /**
   * Round trip: the configuration built for the block's header fields reads
   * back as AAC LC with 960-sample frames, the core sampling-frequency index
   * and the channel configuration; it is missing exactly when the channel
   * configuration is unrecognised.
   */
  lemma AscRoundTrip(dacRate: nat, sbrFlag: nat, mpegSurround: int, aacChannelMode: nat)
    ensures var asc := AudioSpecificConfig(dacRate, sbrFlag, mpegSurround, aacChannelMode);
      var ch := ChannelConfiguration(mpegSurround, aacChannelMode);
      (asc.None? <==> ch == -1)
      && (asc.Some? ==>
            |asc.value| == 2 && ParseAsc(asc.value) == AscFields(2, CoreSampleRateIndex(dacRate, sbrFlag), ch, 4))
  {
    var ch := ChannelConfiguration(mpegSurround, aacChannelMode);
    if ch != -1 {
      var sr := CoreSampleRateIndex(dacRate, sbrFlag);
      var b0: bv8 := 0x10 | ((sr as bv8) >> 1);
      var b1: bv8 := (((sr as bv8) & 0x01) << 7) | ((ch as bv8) << 3) | 0x04;
      assert sr in {3, 5, 6, 8};
      assert (b0 >> 3) == 2;
      assert (((b0 & 0x07) << 1) | (b1 >> 7)) as nat == sr;
      assert ((b1 >> 3) & 0x0f) as nat == ch;
      assert (b1 & 0x07) == 4;
    }
  }

  // ---------------------------------------------------------------------
  // Division facts behind the shift-and-mask fields

  /** Euclidean division by m > 0 is unique. */
  lemma DivUnique(y: int, m: int, q: int, r: int)
    requires m > 0 && 0 <= r < m && y == q * m + r
    ensures y / m == q && y % m == r
  {
    Congruential.ModUnique(y, m, q, r);
    assert (y / m - q) * m == 0;
  }

  /** Shifting right by s bits divides by 2^s. */
  lemma {:induction false} ShrDiv(x: nat, s: nat)
    ensures Shr(x, s) == x / Congruential.Pow2(s)
  {
    if s > 0 {
      ShrDiv(x, s - 1);
      var p := Congruential.Pow2(s - 1);
      var t := x / p;
      var a, b, r := t / 2, t % 2, x % p;
      assert x == t * p + r;
      assert t * p == a * (2 * p) + b * p by {
        assert t == 2 * a + b;
      }
      DivUnique(x, 2 * p, a, b * p + r);
    }
  }

  /** Keeping the n low bits is the remainder modulo 2^n. */
  lemma {:induction false} LowMod(x: nat, n: nat)
    ensures Low(x, n) == x % Congruential.Pow2(n)
  {
    if n > 0 {
      var p := Congruential.Pow2(n - 1);
      LowMod(x / 2, n - 1);
      assert Low(x, n) == 2 * Low(x / 2, n - 1) + x % 2;
      assert Congruential.Pow2(n) == 2 * p;
      ModDouble(x, p);
    }
  }

  /** The remainder modulo 2p: twice the half's remainder modulo p, plus the low bit. */
  lemma ModDouble(x: nat, p: nat)
    requires p > 0
    ensures x % (2 * p) == 2 * ((x / 2) % p) + x % 2
  {
    var h := x / 2;
    var q, r := h / p, h % p;
    assert x == 2 * h + x % 2;
    assert h == q * p + r;
    MulTwice(q, p);
    DivUnique(x, 2 * p, q, 2 * r + x % 2);
  }

  lemma Pow2Values()
    ensures Congruential.Pow2(8) == 256 && Congruential.Pow2(12) == 4096
  {
    assert Congruential.Pow2(4) == 16;
    assert Congruential.Pow2(8) == 256;
  }

  // ---------------------------------------------------------------------
  // The superframe header (ETSI TS 102 563, clause 5.2)

  /** The audio parameters general_work reads from the third header byte (bits 17 to 23 of the superframe). */
  datatype AudioParameters = AudioParameters(dacRate: nat, sbrFlag: nat, aacChannelMode: nat, psFlag: nat, mpegSurround: nat)

  function AudioParametersOf(b: byte): AudioParameters
  {
    AudioParameters(((b >> 6) & 1) as nat, ((b >> 5) & 1) as nat, ((b >> 4) & 1) as nat,
                    ((b >> 3) & 1) as nat, (b & 7) as nat)
  }

  /** The third header byte a multiplexer writes for the given parameters (bit 16 unused, left 0). */
  function AudioParametersByte(p: AudioParameters): byte
    requires p.dacRate < 2 && p.sbrFlag < 2 && p.aacChannelMode < 2 && p.psFlag < 2 && p.mpegSurround < 8
  {
    ((p.dacRate as bv8) << 6) | ((p.sbrFlag as bv8) << 5) | ((p.aacChannelMode as bv8) << 4)
      | ((p.psFlag as bv8) << 3) | (p.mpegSurround as bv8)
  }

  /** Five fields packed into one byte at bits 6, 5, 4, 3 and 2..0 unpack unchanged. */
  lemma UnpackPacked(d: bv8, f: bv8, a: bv8, g: bv8, m: bv8)
    requires d < 2 && f < 2 && a < 2 && g < 2 && m < 8
    ensures var x := (d << 6) | (f << 5) | (a << 4) | (g << 3) | m;
      (x >> 6) & 1 == d && (x >> 5) & 1 == f && (x >> 4) & 1 == a && (x >> 3) & 1 == g && x & 7 == m
  {
  }

  /** A small number survives the round trip through a byte. */
  lemma ByteOfSmall(v: nat)
    requires v < 256
    ensures (v as bv8) as nat == v
  {
    var w := v as bv16;
    assert w < 256;
  }

  /** Every field read from the header is in range. */
  lemma AudioParametersInRange(b: byte)
    ensures var q := AudioParametersOf(b);
      q.dacRate < 2 && q.sbrFlag < 2 && q.aacChannelMode < 2 && q.psFlag < 2 && q.mpegSurround < 8
  {
  }

  /** The parameters written into a header byte are read back unchanged. */
  lemma AudioParametersRoundTrip(p: AudioParameters)
    requires p.dacRate < 2 && p.sbrFlag < 2 && p.aacChannelMode < 2 && p.psFlag < 2 && p.mpegSurround < 8
    ensures AudioParametersOf(AudioParametersByte(p)) == p
  {
    var d, f, a, g, m := p.dacRate as bv8, p.sbrFlag as bv8, p.aacChannelMode as bv8, p.psFlag as bv8, p.mpegSurround as bv8;
    UnpackPacked(d, f, a, g, m);
    ByteOfSmall(p.dacRate);
    ByteOfSmall(p.sbrFlag);
    ByteOfSmall(p.aacChannelMode);
    ByteOfSmall(p.psFlag);
    ByteOfSmall(p.mpegSurround);
  }

  /**
   * 2 * dac_rate + sbr_flag: which of the four AU layouts the superframe
   * uses. The switch's default joins case 0; the functions below give every
   * value other than 1, 2 and 3 the layout of case 0.
   */
  function Layout(p: AudioParameters): nat
  {
    2 * p.dacRate + p.sbrFlag
  }

  /** The layout straight from the third header byte: its bits 6 and 5. */
  function HeaderLayout(x: byte): nat
  {
    ((x >> 5) & 3) as nat
  }

  lemma HeaderLayoutOfParameters(x: byte)
    ensures HeaderLayout(x) == Layout(AudioParametersOf(x)) < 4
  {
    var d, f := (x >> 6) & 1, (x >> 5) & 1;
    assert (x >> 5) & 3 == (d << 1) | f;
    assert ((d << 1) | f) as nat == 2 * d as nat + f as nat;
  }

  /** d_num_aus of each layout: 4, 2, 6 or 3 AUs (ETSI TS 102 563, clause 5.2, Table 2). */
  function NumAus(layout: nat): nat
  {
    if layout == 1 then 2 else if layout == 2 then 6 else if layout == 3 then 3 else 4
  }

  /** d_au_start[0] of each layout: the first AU follows a header of 8, 5, 11 or 6 bytes. */
  function FirstAuStart(layout: nat): nat
  {
    if layout == 1 then 5 else if layout == 2 then 11 else if layout == 3 then 6 else 8
  }

  /** in[p] * 16 + (in[p + 1] >> 4): the 12-bit field that starts on byte p. */
  function HighField(s: seq<byte>, p: nat): nat
    requires p + 1 < |s|
  {
    s[p] as nat * 16 + (s[p + 1] >> 4) as nat
  }

  /** (in[p] & 0xf) * 256 + in[q]: for q == p + 1, the 12-bit field that starts in the middle of byte p. */
  function LowField(s: seq<byte>, p: nat, q: nat): nat
    requires p < |s| && q < |s|
  {
    (s[p] & 0xf) as nat * 256 + s[q] as nat
  }

  /** The top nibble of a byte is the byte divided by 16, its low nibble the remainder. */
  lemma Nibbles(b: byte)
    ensures (b >> 4) as nat == b as nat / 16 && (b & 0xf) as nat == b as nat % 16
  {
  }

  /** The 24-bit window at byte p shifted right by 12 is the field starting on byte p. */
  lemma WindowHigh(d0: nat, d1: nat, d2: nat)
    requires d0 < 256 && d1 < 256 && d2 < 256
    ensures (d0 * 65536 + d1 * 256 + d2) / 4096 == d0 * 16 + d1 / 16
  {
    DivUnique(d0 * 65536 + d1 * 256 + d2, 4096, d0 * 16 + d1 / 16, (d1 % 16) * 256 + d2);
  }

  /** The 24-bit window shifted right by 8 and cut to 12 bits is the field starting mid-byte p. */
  lemma WindowMiddle(d0: nat, d1: nat, d2: nat)
    requires d0 < 256 && d1 < 256 && d2 < 256
    ensures (d0 * 65536 + d1 * 256 + d2) / 256 == d0 * 256 + d1
    ensures (d0 * 256 + d1) % 4096 == (d0 % 16) * 256 + d1
  {
    DivUnique(d0 * 65536 + d1 * 256 + d2, 256, d0 * 256 + d1, d2);
    DivUnique(d0 * 256 + d1, 4096, d0 / 16, (d0 % 16) * 256 + d1);
  }

  /** BinToDec of a field starting at bit r of byte p: the window at p, shifted and masked. */
  lemma BinToDecAt(s: seq<byte>, offset: nat, p: nat, r: nat, length: nat)
    requires offset == 8 * p + r && r < 8 && length <= 16 && p + 2 < |s|
    ensures BinToDec(s, offset, length) == Low(Shr(Window(s, p), 24 - length - r), length)
  {
    assert offset / 8 == p && offset % 8 == r;
  }

  /** The window at p shifted right by 12 bits is the field starting on byte p. */
  lemma ShiftHigh(s: seq<byte>, p: nat)
    requires p + 2 < |s|
    ensures Shr(Window(s, p), 12) == HighField(s, p)
  {
    Pow2Values();
    ShrDiv(Window(s, p), 12);
    WindowHigh(s[p] as nat, s[p + 1] as nat, s[p + 2] as nat);
    Nibbles(s[p + 1]);
  }

  /** A 12-bit field keeps its 12 low bits. */
  lemma MaskHigh(s: seq<byte>, p: nat)
    requires p + 1 < |s|
    ensures Low(HighField(s, p), 12) == HighField(s, p)
  {
    Pow2Values();
    LowSmall(HighField(s, p), 12);
  }

  /** The window at p shifted right by 8 bits is its first two bytes. */
  lemma ShiftMiddle(s: seq<byte>, p: nat)
    requires p + 2 < |s|
    ensures Shr(Window(s, p), 8) == s[p] as nat * 256 + s[p + 1] as nat
  {
    Pow2Values();
    ShrDiv(Window(s, p), 8);
    WindowMiddle(s[p] as nat, s[p + 1] as nat, s[p + 2] as nat);
  }

  /** Two bytes cut to 12 bits keep the low nibble of the first. */
  lemma MaskMiddle(d0: nat, d1: nat)
    requires d0 < 256 && d1 < 256
    ensures Low(d0 * 256 + d1, 12) == (d0 % 16) * 256 + d1
  {
    var x := d0 * 256 + d1;
    assert Low(x, 12) == x % 4096 by {
      Pow2Values();
      LowMod(x, 12);
    }
    WindowMiddle(d0, d1, 0);
  }

  /** The field starting mid-byte p, in terms of the byte values. */
  lemma LowFieldNibble(s: seq<byte>, p: nat)
    requires p + 1 < |s|
    ensures LowField(s, p, p + 1) == (s[p] as nat % 16) * 256 + s[p + 1] as nat
  {
    Nibbles(s[p]);
  }

  /** The two kinds of 12-bit field are the bits of the stream read by BinToDec. */
  lemma HighFieldBits(s: seq<byte>, p: nat)
    requires p + 2 < |s|
    ensures HighField(s, p) == BinToDec(s, 8 * p, 12) == Value(BitField(s, 8 * p, 12))
  {
    ShiftHigh(s, p);
    MaskHigh(s, p);
    BinToDecAt(s, 8 * p, p, 0, 12);
    BinToDecReadsField(s, 8 * p, 12);
  }

  lemma LowFieldBits(s: seq<byte>, p: nat)
    requires p + 2 < |s|
    ensures LowField(s, p, p + 1) == BinToDec(s, 8 * p + 4, 12) == Value(BitField(s, 8 * p + 4, 12))
  {
    LowFieldWindow(s, p);
    BinToDecReadsField(s, 8 * p + 4, 12);
  }

  lemma LowFieldWindow(s: seq<byte>, p: nat)
    requires p + 2 < |s|
    ensures LowField(s, p, p + 1) == BinToDec(s, 8 * p + 4, 12)
  {
    var x := s[p] as nat * 256 + s[p + 1] as nat;
    assert BinToDec(s, 8 * p + 4, 12) == Low(Shr(Window(s, p), 8), 12) by {
      BinToDecAt(s, 8 * p + 4, p, 4, 12);
    }
    assert Shr(Window(s, p), 8) == x by {
      ShiftMiddle(s, p);
    }
    assert Low(x, 12) == LowField(s, p, p + 1) by {
      MaskMiddle(s[p] as nat, s[p + 1] as nat);
      LowFieldNibble(s, p);
    }
  }

  // ---------------------------------------------------------------------
  // The AU start table

  /**
   * Entry k of d_au_start after general_work has read the header of the
   * superframe at byte b of `in` (b = n * superframe_size), with prev the
   * array before: the first start of the layout, the 12-bit start fields of
   * the header, and superframe_size after the last AU. As written, case 1
   * stores its first start at index n * superframe_size rather than 0, and
   * case 2 reads the low byte of its fifth start from in[8], the first
   * superframe's byte, whatever n is.
   */
  function AsWrittenEntry(s: seq<byte>, b: nat, sfs: nat, prev: seq<int>, k: nat): int
    requires |prev| == 10 && b + 11 <= |s| && k < 10
  {
    var layout := HeaderLayout(s[b + 2]);
    if layout == 1 then
      if k == 2 then sfs else if k == 1 then HighField(s, b + 3) else if k == b then 5 else prev[k]
    else if layout == 2 then
      if k == 0 then 11 else if k == 1 then HighField(s, b + 3) else if k == 2 then LowField(s, b + 4, b + 5)
      else if k == 3 then HighField(s, b + 6) else if k == 4 then LowField(s, b + 7, 8)
      else if k == 5 then HighField(s, b + 9) else if k == 6 then sfs else prev[k]
    else if layout == 3 then
      if k == 0 then 6 else if k == 1 then HighField(s, b + 3) else if k == 2 then LowField(s, b + 4, b + 5)
      else if k == 3 then sfs else prev[k]
    else
      if k == 0 then 8 else if k == 1 then HighField(s, b + 3) else if k == 2 then LowField(s, b + 4, b + 5)
      else if k == 3 then HighField(s, b + 6) else if k == 4 then sfs else prev[k]
  }

  /**
   * d_au_start after the header of the superframe at b; None when case 1's
   * write at index b falls outside the ten-entry array (undefined).
   */
  function AuStartsAsWritten(s: seq<byte>, b: nat, sfs: nat, prev: seq<int>): (r: Option<seq<int>>)
    requires |prev| == 10 && b + 11 <= |s|
    ensures r.Some? ==> |r.value| == 10
  {
    if HeaderLayout(s[b + 2]) == 1 && b >= 10 then None
    else Some(seq(10, k requires 0 <= k < 10 => AsWrittenEntry(s, b, sfs, prev, k)))
  }

  /** The 12-bit start field k (1 <= k) of the header of the superframe at b: bits 12 * k + 12 on. */
  function StartField(s: seq<byte>, b: nat, k: nat): nat
    requires 1 <= k <= 5 && b + 11 <= |s|
  {
    if k % 2 == 1 then HighField(s, b + 3 + 3 * (k / 2)) else LowField(s, b + 1 + 3 * (k / 2), b + 2 + 3 * (k / 2))
  }

  /**
   * The AU start addresses of the superframe at b as ETSI TS 102 563
   * (clause 5.2) lays them out: the first after the header, the next ones
   * from the 12-bit fields, and the end of the superframe after the last.
   */
  function AuStarts(s: seq<byte>, b: nat, sfs: nat): (r: seq<nat>)
    requires b + 11 <= |s|
  {
    var layout := HeaderLayout(s[b + 2]);
    var f1, f2, f3 := HighField(s, b + 3), LowField(s, b + 4, b + 5), HighField(s, b + 6);
    if layout == 1 then [5, f1, sfs]
    else if layout == 2 then [11, f1, f2, f3, LowField(s, b + 7, b + 8), HighField(s, b + 9), sfs]
    else if layout == 3 then [6, f1, f2, sfs]
    else [8, f1, f2, f3, sfs]
  }

  /**
   * The standard's table: for 2 * dac_rate + sbr_flag = 0, 1, 2, 3 there are
   * 4, 2, 6, 3 AUs, the first starting at 8, 5, 11, 6, the last ending at
   * the superframe size, and every other start is the big-endian 12-bit
   * field at bit 12 * k + 12 of the superframe, below 4096.
   */
  lemma AuStartsLayout(s: seq<byte>, b: nat, sfs: nat)
    requires b + 12 <= |s|
    ensures var layout := HeaderLayout(s[b + 2]);
      layout < 4 && NumAus(layout) == [4, 2, 6, 3][layout] && FirstAuStart(layout) == [8, 5, 11, 6][layout]
    ensures var r := AuStarts(s, b, sfs);
      var num := NumAus(HeaderLayout(s[b + 2]));
      && |r| == num + 1 && r[0] == FirstAuStart(HeaderLayout(s[b + 2])) && r[num] == sfs
      && forall k :: 1 <= k < num ==> r[k] == Value(BitField(s, 8 * b + 12 * k + 12, 12)) < 4096
  {
    HeaderLayoutBound(s[b + 2]);
    LayoutTables(HeaderLayout(s[b + 2]));
    AuStartsFields(s, b, sfs);
  }

  lemma HeaderLayoutBound(x: byte)
    ensures HeaderLayout(x) < 4
  {
    assert (x >> 5) & 3 <= 3;
  }

  lemma LayoutTables(layout: nat)
    requires layout < 4
    ensures NumAus(layout) == [4, 2, 6, 3][layout] && FirstAuStart(layout) == [8, 5, 11, 6][layout]
  {
  }

  lemma AuStartsFields(s: seq<byte>, b: nat, sfs: nat)
    requires b + 12 <= |s|
    ensures var r := AuStarts(s, b, sfs);
      var num := NumAus(HeaderLayout(s[b + 2]));
      && |r| == num + 1 && r[0] == FirstAuStart(HeaderLayout(s[b + 2])) && r[num] == sfs
      && forall k :: 1 <= k < num ==> r[k] == Value(BitField(s, 8 * b + 12 * k + 12, 12)) < 4096
  {
    var r := AuStarts(s, b, sfs);
    var num := NumAus(HeaderLayout(s[b + 2]));
    forall k | 1 <= k < num
      ensures r[k] == Value(BitField(s, 8 * b + 12 * k + 12, 12)) < 4096
    {
      AuStartsMiddle(s, b, sfs, num, k);
      StartFieldBits(s, b, k);
    }
  }

  lemma AuStartsMiddle(s: seq<byte>, b: nat, sfs: nat, num: nat, k: nat)
    requires b + 12 <= |s| && num == NumAus(HeaderLayout(s[b + 2])) && 1 <= k < num
    ensures |AuStarts(s, b, sfs)| == num + 1 && k <= 5
    ensures AuStarts(s, b, sfs)[k] == StartField(s, b, k)
  {
    assert num <= 6;
  }

  lemma StartFieldBits(s: seq<byte>, b: nat, k: nat)
    requires 1 <= k <= 5 && b + 12 <= |s|
    ensures StartField(s, b, k) == Value(BitField(s, 8 * b + 12 * k + 12, 12)) < 4096
  {
    var q := 3 * (k / 2);
    Pow2Values();
    if k % 2 == 1 {
      assert 8 * b + 12 * k + 12 == 8 * (b + 3 + q);
      HighFieldBits(s, b + 3 + q);
      BinToDecReadsField(s, 8 * (b + 3 + q), 12);
    } else {
      assert 8 * b + 12 * k + 12 == 8 * (b + 1 + q) + 4;
      LowFieldBits(s, b + 1 + q);
      BinToDecReadsField(s, 8 * (b + 1 + q) + 4, 12);
    }
  }

  /** The used entries of the as-written table, when it is defined. */
  predicate TableAgrees(r: Option<seq<int>>, starts: seq<nat>)
  {
    r.Some? && |starts| <= |r.value| && forall k :: 0 <= k < |starts| ==> r.value[k] == starts[k]
  }

  /** For the first superframe of a call the as-written table is the standard one. */
  lemma AsWrittenFirstSuperframe(s: seq<byte>, sfs: nat, prev: seq<int>)
    requires |prev| == 10 && 11 <= |s|
    ensures TableAgrees(AuStartsAsWritten(s, 0, sfs, prev), AuStarts(s, 0, sfs))
  {
    AsWrittenAgreesWhere(s, 0, sfs, prev);
  }

  /** The as-written entries agree with the standard's table except in the two places the header comment names. */
  lemma AsWrittenAgreesWhere(s: seq<byte>, b: nat, sfs: nat, prev: seq<int>)
    requires |prev| == 10 && b + 11 <= |s|
    requires HeaderLayout(s[b + 2]) == 1 ==> b == 0
    requires HeaderLayout(s[b + 2]) == 2 ==> s[8] == s[b + 8]
    ensures TableAgrees(AuStartsAsWritten(s, b, sfs, prev), AuStarts(s, b, sfs))
  {
    var t := AuStarts(s, b, sfs);
    var r := AuStartsAsWritten(s, b, sfs, prev);
    forall k | 0 <= k < |t|
      ensures r.value[k] == t[k]
    {
      assert r.value[k] == AsWrittenEntry(s, b, sfs, prev, k);
      EntryAgrees(s, b, sfs, prev, k);
    }
  }

  /** The header bytes each start field is read from. */
  lemma StartFieldBytes(s: seq<byte>, b: nat)
    requires b + 11 <= |s|
    ensures StartField(s, b, 1) == HighField(s, b + 3) && StartField(s, b, 2) == LowField(s, b + 4, b + 5)
    ensures StartField(s, b, 3) == HighField(s, b + 6) && StartField(s, b, 4) == LowField(s, b + 7, b + 8)
    ensures StartField(s, b, 5) == HighField(s, b + 9)
  {
  }

  lemma EntryAgrees(s: seq<byte>, b: nat, sfs: nat, prev: seq<int>, k: nat)
    requires |prev| == 10 && b + 11 <= |s| && k < |AuStarts(s, b, sfs)|
    requires HeaderLayout(s[b + 2]) == 1 ==> b == 0
    requires HeaderLayout(s[b + 2]) == 2 ==> s[8] == s[b + 8]
    ensures AsWrittenEntry(s, b, sfs, prev, k) == AuStarts(s, b, sfs)[k]
  {
    var layout := HeaderLayout(s[b + 2]);
    StartFieldBytes(s, b);
    assert AuStarts(s, b, sfs)[k] == TableEntry(s, b, sfs, layout, k);
    if layout == 1 {
      EntryAgreesSingle(s, b, sfs, prev, k);
    } else if layout == 2 {
      EntryAgreesSix(s, b, sfs, prev, k);
    } else if layout == 3 {
      EntryAgreesThree(s, b, sfs, prev, k);
    } else {
      EntryAgreesFour(s, b, sfs, prev, k);
    }
  }

  /** Entry k of the standard's table for a layout. */
  function TableEntry(s: seq<byte>, b: nat, sfs: nat, layout: nat, k: nat): nat
    requires b + 11 <= |s| && k <= NumAus(layout)
  {
    if k == 0 then FirstAuStart(layout) else if k == NumAus(layout) then sfs else StartField(s, b, k)
  }

  lemma EntryAgreesSingle(s: seq<byte>, b: nat, sfs: nat, prev: seq<int>, k: nat)
    requires |prev| == 10 && b == 0 && 11 <= |s| && HeaderLayout(s[2]) == 1 && k <= 2
    requires StartField(s, 0, 1) == HighField(s, 3)
    ensures AsWrittenEntry(s, 0, sfs, prev, k) == TableEntry(s, 0, sfs, 1, k)
  {
  }

  lemma EntryAgreesSix(s: seq<byte>, b: nat, sfs: nat, prev: seq<int>, k: nat)
    requires |prev| == 10 && b + 11 <= |s| && HeaderLayout(s[b + 2]) == 2 && k <= 6
    requires s[8] == s[b + 8]
    requires StartField(s, b, 1) == HighField(s, b + 3) && StartField(s, b, 2) == LowField(s, b + 4, b + 5)
    requires StartField(s, b, 3) == HighField(s, b + 6) && StartField(s, b, 4) == LowField(s, b + 7, b + 8)
    requires StartField(s, b, 5) == HighField(s, b + 9)
    ensures AsWrittenEntry(s, b, sfs, prev, k) == TableEntry(s, b, sfs, 2, k)
  {
    assert LowField(s, b + 7, 8) == LowField(s, b + 7, b + 8);
  }

  lemma EntryAgreesFour(s: seq<byte>, b: nat, sfs: nat, prev: seq<int>, k: nat)
    requires |prev| == 10 && b + 11 <= |s| && HeaderLayout(s[b + 2]) == 0 && k <= 4
    requires StartField(s, b, 1) == HighField(s, b + 3) && StartField(s, b, 2) == LowField(s, b + 4, b + 5)
    requires StartField(s, b, 3) == HighField(s, b + 6)
    ensures AsWrittenEntry(s, b, sfs, prev, k) == TableEntry(s, b, sfs, 0, k)
  {
  }

  lemma EntryAgreesThree(s: seq<byte>, b: nat, sfs: nat, prev: seq<int>, k: nat)
    requires |prev| == 10 && b + 11 <= |s| && HeaderLayout(s[b + 2]) == 3 && k <= 3
    requires StartField(s, b, 1) == HighField(s, b + 3) && StartField(s, b, 2) == LowField(s, b + 4, b + 5)
    ensures AsWrittenEntry(s, b, sfs, prev, k) == TableEntry(s, b, sfs, 3, k)
  {
  }



  /** Layouts 0 and 3 are right for every superframe. */
  lemma AsWrittenLayoutsZeroAndThree(s: seq<byte>, b: nat, sfs: nat, prev: seq<int>)
    requires |prev| == 10 && b + 11 <= |s|
    requires HeaderLayout(s[b + 2]) in {0, 3}
    ensures TableAgrees(AuStartsAsWritten(s, b, sfs, prev), AuStarts(s, b, sfs))
  {
    AsWrittenAgreesWhere(s, b, sfs, prev);
  }

  /**
   * Later superframes of a call: with layout 1 the first start is written
   * outside the array; with layout 2 the fifth start takes in[8] instead of
   * the superframe's own byte, so it is wrong whenever the two differ.
   */
  lemma AsWrittenLaterSuperframes(s: seq<byte>, b: nat, sfs: nat, prev: seq<int>)
    requires |prev| == 10 && 10 <= b && b + 11 <= |s|
    ensures HeaderLayout(s[b + 2]) == 1 ==> AuStartsAsWritten(s, b, sfs, prev).None?
    ensures HeaderLayout(s[b + 2]) == 2 && s[8] != s[b + 8] ==>
      !TableAgrees(AuStartsAsWritten(s, b, sfs, prev), AuStarts(s, b, sfs))
  {
    if HeaderLayout(s[b + 2]) == 2 && s[8] != s[b + 8] {
      var r := AuStartsAsWritten(s, b, sfs, prev).value;
      var t := AuStarts(s, b, sfs);
      assert r[4] == AsWrittenEntry(s, b, sfs, prev, 4) == LowField(s, b + 7, 8);
      assert t[4] == StartField(s, b, 4) == LowField(s, b + 7, b + 8);
    }
  }

  /** The corrected table, written into the array: the entries past the last start keep their values. */
  function AuStartsCorrected(s: seq<byte>, b: nat, sfs: nat, prev: seq<int>): (r: seq<int>)
    requires |prev| == 10 && b + 11 <= |s|
    ensures |r| == 10 && TableAgrees(Some(r), AuStarts(s, b, sfs))
    ensures forall k :: |AuStarts(s, b, sfs)| <= k < 10 ==> r[k] == prev[k]
  {
    var t := AuStarts(s, b, sfs);
    seq(10, k requires 0 <= k < 10 => if k < |t| then t[k] else prev[k])
  }
}
