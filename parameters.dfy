/**
 * The DAB transmission-mode parameters: the mode table of ETSI EN 300 401
 * (Table 38), the phase-reference PRN indices of clause 14.3.2 (Tables 39 to
 * 43) and the frequency-interleaving permutation of clause 14.6, as the
 * receiver's parameter object derives them for a mode.
 */
module DabParameters {
  import opened Signal
  import opened Sequences
  import opened Congruential

  /** Transmission modes I to IV. */
  type Mode = m: int | 1 <= m <= 4 witness 1

  /** A value in [0, 4): a quarter-turn phase index or a PRN table entry. */
  type Quarter = x: int | 0 <= x < 4

  // Mode tables, indexed by mode - 1.
  const SymbolsPerFrameTable: seq<int> := [76, 76, 153, 76]
  const NumCarriersTable: seq<int> := [1536, 384, 192, 768]
  const FrameLengthTable: seq<int> := [196608, 49152, 49152, 98304]
  const NsLengthTable: seq<int> := [2656, 664, 345, 1328]
  const SymbolLengthTable: seq<int> := [2552, 638, 319, 1276]
  const FftLengthTable: seq<int> := [2048, 512, 256, 1024]
  const CpLengthTable: seq<int> := [504, 126, 63, 252]
  const NumFibsTable: seq<int> := [12, 3, 4, 6]
  const NumCifsTable: seq<int> := [4, 1, 1, 2]

  /** A frame is its OFDM symbols plus the null symbol; a symbol is the FFT window plus the guard. */
  predicate FrameIdentities(i: nat)
    requires i < 4
  {
    SymbolsPerFrameTable[i] * SymbolLengthTable[i] + NsLengthTable[i] == FrameLengthTable[i]
    && SymbolLengthTable[i] == FftLengthTable[i] + CpLengthTable[i]
  }

  /** The constructor's sanity loop: the identities hold for all four modes. */
  lemma ModeTablesConsistent()
    ensures forall i :: 0 <= i < 4 ==> FrameIdentities(i)
  {
    assert FrameIdentities(0) && FrameIdentities(1) && FrameIdentities(2) && FrameIdentities(3);
  }

  /** The FFT length of each mode is 2^e for this e. */
  function FftExponent(mode: Mode): nat
  {
    if mode == 1 then 11 else if mode == 2 then 9 else if mode == 3 then 8 else 10
  }

  /**
   * The shape the interleaving rule relies on: the FFT length is a power of
   * two and a multiple of 8, the number of carriers is three quarters of it,
   * the increment fft/4 - 1 is odd, and the carriers split into blocks of 32
   * on each side of the centre.
   */
  lemma ModeShape(mode: Mode)
    ensures FftLengthTable[mode - 1] == Pow2(FftExponent(mode))
    ensures FftLengthTable[mode - 1] % 8 == 0
    ensures NumCarriersTable[mode - 1] == 6 * (FftLengthTable[mode - 1] / 8)
    ensures Odd(FftLengthTable[mode - 1] / 4 - 1)
    ensures NumCarriersTable[mode - 1] % 64 == 0
  {
    assert Pow2(8) == 256;
    assert Pow2(11) == 2 * Pow2(10) == 4 * Pow2(9) == 8 * Pow2(8);
  }

  /** QPSK carries 2 bits per carrier, so the division by 4 in bytes_per_frame is exact. */
  lemma BytesPerFrameExact(mode: Mode)
    ensures (SymbolsPerFrameTable[mode - 1] - 1) * NumCarriersTable[mode - 1] / 4 * 8
         == (SymbolsPerFrameTable[mode - 1] - 1) * NumCarriersTable[mode - 1] * 2
  {
  }

  // ---------------------------------------------------------------------
  // Frequency interleaving (clause 14.6)

  /** The first n terms of A[0] = 0, A[i] = (13 A[i-1] + fft/4 - 1) mod fft. */
  function LcgTerms(fft: nat, n: nat): (r: seq<int>)
    requires fft > 0
    ensures |r| == n
  {
    if n == 0 then [] else LcgTerms(fft, n - 1) + [Lcg(13, fft / 4 - 1, fft, n - 1)]
  }

  lemma {:induction false} LcgTermsAt(fft: nat, n: nat)
    requires fft > 0
    ensures forall i :: 0 <= i < n ==> LcgTerms(fft, n)[i] == Lcg(13, fft / 4 - 1, fft, i)
  {
    if n > 0 {
      LcgTermsAt(fft, n - 1);
    }
  }

  /** The filter of D: fft/8 <= d <= 7 fft/8 and d != fft/2 (integer division). */
  predicate Kept(fft: int, d: int)
  {
    fft / 8 <= d <= 7 * fft / 8 && d != fft / 2
  }

  /** D: the kept entries of A, in the order of A. */
  function KeepFilter(a: seq<int>, fft: int): seq<int>
  {
    if |a| == 0 then []
    else
      var last := a[|a| - 1];
      KeepFilter(a[..|a| - 1], fft) + if Kept(fft, last) then [last] else []
  }

  /** D holds exactly the kept values of A. */
  lemma {:induction false} KeepFilterMembers(a: seq<int>, fft: int)
    ensures forall x :: x in KeepFilter(a, fft) <==> x in a && Kept(fft, x)
  {
    if |a| > 0 {
      KeepFilterMembers(a[..|a| - 1], fft);
      assert a == a[..|a| - 1] + [a[|a| - 1]];
    }
  }

  /** Filtering keeps distinct values distinct. */
  lemma {:induction false} KeepFilterDistinct(a: seq<int>, fft: int)
    requires Distinct(a)
    ensures Distinct(KeepFilter(a, fft))
  {
    if |a| > 0 {
      var init := a[..|a| - 1];
      assert Distinct(init);
      KeepFilterDistinct(init, fft);
      KeepFilterMembers(init, fft);
      assert a[|a| - 1] !in init;
    }
  }

  /** The kept terms among the first n terms of A, newest first. */
  datatype KeptList = Nil | Cons(head: int, tail: KeptList)

  function KeptRev(fft: nat, n: nat): KeptList
    requires fft > 0
  {
    if n == 0 then Nil
    else
      var x := Lcg(13, fft / 4 - 1, fft, n - 1);
      if Kept(fft, x) then Cons(x, KeptRev(fft, n - 1)) else KeptRev(fft, n - 1)
  }

  /** The list in the order the terms were generated, oldest first. */
  function Chronological(l: KeptList): seq<int>
  {
    match l
    case Nil => []
    case Cons(h, t) => Chronological(t) + [h]
  }

  lemma {:induction false} KeptTermsOfLcg(fft: nat, n: nat)
    requires fft > 0
    ensures KeepFilter(LcgTerms(fft, n), fft) == Chronological(KeptRev(fft, n))
  {
    if n > 0 {
      KeptTermsOfLcg(fft, n - 1);
      assert LcgTerms(fft, n)[..n - 1] == LcgTerms(fft, n - 1);
    }
  }

  /** A prefix of A is the shorter A. */
  lemma {:induction false} LcgTermsPrefix(fft: nat, m: nat, n: nat)
    requires fft > 0 && m <= n
    ensures LcgTerms(fft, n)[..m] == LcgTerms(fft, m)
  {
    LcgTermsAt(fft, n);
    LcgTermsAt(fft, m);
  }

  /** Filtering a prefix of A gives a prefix of D. */
  lemma {:induction false} KeepFilterPrefix(a: seq<int>, m: nat, fft: int)
    requires m <= |a|
    ensures KeepFilter(a[..m], fft) <= KeepFilter(a, fft)
    decreases |a|
  {
    if m < |a| {
      var init := a[..|a| - 1];
      assert init[..m] == a[..m];
      KeepFilterPrefix(init, m, fft);
    } else {
      assert a[..m] == a;
    }
  }

  /** frequency_interleaving_sequence: D centred on the DC carrier. */
  function CentredSequence(d: seq<int>, fft: int): (r: seq<int>)
    ensures |r| == |d|
  {
    seq(|d|, j requires 0 <= j < |d| => d[j] - fft / 2)
  }

  /** frequency_interleaving_sequence_array: indices from 0 with the DC carrier removed. */
  function ArrayIndices(fis: seq<int>, carriers: int): (r: seq<int>)
    ensures |r| == |fis|
  {
    seq(|fis|, j requires 0 <= j < |fis| => fis[j] + carriers / 2 - if fis[j] > 0 then 1 else 0)
  }

  /** The array index of a kept value x. */
  function ArrayIndexOf(x: int, fft: int, carriers: int): int
  {
    x - fft / 2 + carriers / 2 - if x - fft / 2 > 0 then 1 else 0
  }

  /** The kept value whose array index is y. */
  function KeptValueAt(y: int, fft: int, carriers: int): int
  {
    y + fft / 2 - carriers / 2 + if y >= carriers / 2 then 1 else 0
  }

  /** The array index is a bijection from the kept values onto 0..N-1. */
  lemma ArrayIndexBijection(fft: int, carriers: int)
    requires fft > 0 && fft % 8 == 0 && carriers == 6 * (fft / 8)
    ensures forall x :: Kept(fft, x) ==> 0 <= ArrayIndexOf(x, fft, carriers) < carriers
    ensures forall x, x' :: Kept(fft, x) && Kept(fft, x') && ArrayIndexOf(x, fft, carriers) == ArrayIndexOf(x', fft, carriers) ==> x == x'
    ensures forall y :: 0 <= y < carriers ==>
      Kept(fft, KeptValueAt(y, fft, carriers)) && 0 <= KeptValueAt(y, fft, carriers) < fft
      && ArrayIndexOf(KeptValueAt(y, fft, carriers), fft, carriers) == y
  {
  }

  /**
   * Of a permutation A of 0..fft-1, the kept entries number N = 3 fft / 4 and
   * their array indices are a permutation of 0..N-1.
   */
  lemma KeptTermsArePermutation(a: seq<int>, fft: int, carriers: int)
    requires fft > 0 && fft % 8 == 0 && carriers == 6 * (fft / 8)
    requires IsPermutation(a, fft)
    ensures |KeepFilter(a, fft)| == carriers
    ensures IsPermutation(ArrayIndices(CentredSequence(KeepFilter(a, fft), fft), carriers), carriers)
  {
    var d := KeepFilter(a, fft);
    var arr := ArrayIndices(CentredSequence(d, fft), carriers);
    KeepFilterMembers(a, fft);
    KeepFilterDistinct(a, fft);
    ArrayIndexBijection(fft, carriers);
    assert forall j :: 0 <= j < |d| ==> d[j] in d && arr[j] == ArrayIndexOf(d[j], fft, carriers);
    assert InRange(arr, carriers);
    assert Distinct(arr);
    DistinctInRangeCovers(a, fft);
    assert Elements(arr) == Range(carriers) by {
      forall y | 0 <= y < carriers ensures y in Elements(arr) {
        var x := KeptValueAt(y, fft, carriers);
        assert x in a && x in d;
        var j :| 0 <= j < |d| && d[j] == x;
        assert arr[j] == y;
      }
    }
    DistinctCardinality(arr);
  }

  /** The interleaving array of a mode: A, filtered, centred and shifted. */
  function InterleavingSequenceOf(mode: Mode): seq<int>
  {
    var fft := FftLengthTable[mode - 1];
    CentredSequence(KeepFilter(LcgTerms(fft, fft), fft), fft)
  }

  function InterleavingArrayOf(mode: Mode): seq<int>
  {
    ArrayIndices(InterleavingSequenceOf(mode), NumCarriersTable[mode - 1])
  }

  /**
   * The assertions of the interleaving computation hold in every mode: D has
   * num_carriers entries and the array is a permutation of 0..N-1 (so its
   * minimum is 0, its maximum N-1, and its entries are unique).
   */
  lemma InterleavingIsPermutation(mode: Mode)
    ensures |InterleavingSequenceOf(mode)| == NumCarriersTable[mode - 1]
    ensures IsPermutation(InterleavingArrayOf(mode), NumCarriersTable[mode - 1])
  {
    var fft := FftLengthTable[mode - 1];
    ModeShape(mode);
    CongruentialTermsArePermutation(fft, FftExponent(mode));
    KeptTermsArePermutation(LcgTerms(fft, fft), fft, NumCarriersTable[mode - 1]);
  }

  /**
   * A, the first fft terms of the congruential sequence, is a permutation of
   * 0..fft-1 when fft is a power of two and the increment fft/4 - 1 is odd.
   */
  lemma CongruentialTermsArePermutation(fft: nat, e: nat)
    requires fft == Pow2(e) && Odd(fft / 4 - 1)
    ensures IsPermutation(LcgTerms(fft, fft), fft)
  {
    var a := LcgTerms(fft, fft);
    LcgTermsAt(fft, fft);
    assert InRange(a, fft);
    forall i, j | 0 <= i < j < fft ensures a[i] != a[j] {
      LcgDistinct(13, fft / 4 - 1, e, i, j);
    }
  }

  const ExpectedInterleaving: seq<seq<int>> := [
    [-513, -14, 329, 692, -733, 13, 680, 273, -36, 43],
    [-129, -14, -55, -76, 163, 141, -88, 7, -111, -85],
    [-65, -14, 52, -29, -58, 77, 40, 71, -38, 81],
    [-257, -14, 73, 180, 198, -243, 168, 218, 17, 299]]

  /** The first 14 terms of A in mode I yield its first ten kept entries. */
  lemma FirstKeptTermsModeI()
    ensures KeptRev(2048, 14) == Cons(1067, Cons(988, Cons(1297, Cons(1704, Cons(1037, Cons(291, Cons(1716, Cons(1353, Cons(1010, Cons(511, Nil))))))))))
  {
    assert Lcg(13, 511, 2048, 1) == 511;
    assert Lcg(13, 511, 2048, 2) == 1010;
    assert Lcg(13, 511, 2048, 3) == 1353;
    assert Lcg(13, 511, 2048, 4) == 1716;
    assert Lcg(13, 511, 2048, 5) == 291;
    assert Lcg(13, 511, 2048, 6) == 198;
    assert Lcg(13, 511, 2048, 7) == 1037;
    assert Lcg(13, 511, 2048, 8) == 1704;
    assert Lcg(13, 511, 2048, 9) == 135;
    assert Lcg(13, 511, 2048, 10) == 218;
    assert Lcg(13, 511, 2048, 11) == 1297;
    assert Lcg(13, 511, 2048, 12) == 988;
    assert Lcg(13, 511, 2048, 13) == 1067;
  }

  lemma ChronologicalModeI()
    ensures Chronological(Cons(1067, Cons(988, Cons(1297, Cons(1704, Cons(1037, Cons(291, Cons(1716, Cons(1353, Cons(1010, Cons(511, Nil))))))))))) == [511, 1010, 1353, 1716, 291, 1037, 1704, 1297, 988, 1067]
  {
  }

  /** The first 14 terms of A in mode II yield its first ten kept entries. */
  lemma FirstKeptTermsModeII()
    ensures KeptRev(512, 14) == Cons(171, Cons(145, Cons(263, Cons(168, Cons(397, Cons(419, Cons(180, Cons(201, Cons(242, Cons(127, Nil))))))))))
  {
    assert Lcg(13, 127, 512, 1) == 127;
    assert Lcg(13, 127, 512, 2) == 242;
    assert Lcg(13, 127, 512, 3) == 201;
    assert Lcg(13, 127, 512, 4) == 180;
    assert Lcg(13, 127, 512, 5) == 419;
    assert Lcg(13, 127, 512, 6) == 454;
    assert Lcg(13, 127, 512, 7) == 397;
    assert Lcg(13, 127, 512, 8) == 168;
    assert Lcg(13, 127, 512, 9) == 263;
    assert Lcg(13, 127, 512, 10) == 474;
    assert Lcg(13, 127, 512, 11) == 145;
    assert Lcg(13, 127, 512, 12) == 476;
    assert Lcg(13, 127, 512, 13) == 171;
  }

  lemma ChronologicalModeII()
    ensures Chronological(Cons(171, Cons(145, Cons(263, Cons(168, Cons(397, Cons(419, Cons(180, Cons(201, Cons(242, Cons(127, Nil))))))))))) == [127, 242, 201, 180, 419, 397, 168, 263, 145, 171]
  {
  }

  /** The first 12 terms of A in mode III yield its first ten kept entries. */
  lemma FirstKeptTermsModeIII()
    ensures KeptRev(256, 12) == Cons(209, Cons(90, Cons(199, Cons(168, Cons(205, Cons(70, Cons(99, Cons(180, Cons(114, Cons(63, Nil))))))))))
  {
    assert Lcg(13, 63, 256, 1) == 63;
    assert Lcg(13, 63, 256, 2) == 114;
    assert Lcg(13, 63, 256, 3) == 9;
    assert Lcg(13, 63, 256, 4) == 180;
    assert Lcg(13, 63, 256, 5) == 99;
    assert Lcg(13, 63, 256, 6) == 70;
    assert Lcg(13, 63, 256, 7) == 205;
    assert Lcg(13, 63, 256, 8) == 168;
    assert Lcg(13, 63, 256, 9) == 199;
    assert Lcg(13, 63, 256, 10) == 90;
    assert Lcg(13, 63, 256, 11) == 209;
  }

  lemma ChronologicalModeIII()
    ensures Chronological(Cons(209, Cons(90, Cons(199, Cons(168, Cons(205, Cons(70, Cons(99, Cons(180, Cons(114, Cons(63, Nil))))))))))) == [63, 114, 180, 99, 70, 205, 168, 199, 90, 209]
  {
  }

  /** The first 14 terms of A in mode IV yield its first ten kept entries. */
  lemma FirstKeptTermsModeIV()
    ensures KeptRev(1024, 14) == Cons(811, Cons(529, Cons(730, Cons(680, Cons(269, Cons(710, Cons(692, Cons(585, Cons(498, Cons(255, Nil))))))))))
  {
    assert Lcg(13, 255, 1024, 1) == 255;
    assert Lcg(13, 255, 1024, 2) == 498;
    assert Lcg(13, 255, 1024, 3) == 585;
    assert Lcg(13, 255, 1024, 4) == 692;
    assert Lcg(13, 255, 1024, 5) == 35;
    assert Lcg(13, 255, 1024, 6) == 710;
    assert Lcg(13, 255, 1024, 7) == 269;
    assert Lcg(13, 255, 1024, 8) == 680;
    assert Lcg(13, 255, 1024, 9) == 903;
    assert Lcg(13, 255, 1024, 10) == 730;
    assert Lcg(13, 255, 1024, 11) == 529;
    assert Lcg(13, 255, 1024, 12) == 988;
    assert Lcg(13, 255, 1024, 13) == 811;
  }

  lemma ChronologicalModeIV()
    ensures Chronological(Cons(811, Cons(529, Cons(730, Cons(680, Cons(269, Cons(710, Cons(692, Cons(585, Cons(498, Cons(255, Nil))))))))))) == [255, 498, 585, 692, 710, 269, 680, 730, 529, 811]
  {
  }

  /** The number of terms of A that yield the first ten kept entries. */
  function LeadingTerms(mode: Mode): nat
  {
    if mode == 3 then 12 else 14
  }

  /** The leading entries of the interleaving sequence are the ten values the standard lists. */
  lemma LeadingEntriesMatchStandard(mode: Mode)
    ensures |InterleavingSequenceOf(mode)| >= 10
    ensures InterleavingSequenceOf(mode)[..10] == ExpectedInterleaving[mode - 1]
  {
    var fft := FftLengthTable[mode - 1];
    var n := LeadingTerms(mode);
    var first := LeadingKeptTerms(mode);
    var a := LcgTerms(fft, fft);
    LcgTermsPrefix(fft, n, fft);
    KeepFilterPrefix(a, n, fft);
    var d := KeepFilter(a, fft);
    assert d[..10] == first;
    CentredPrefix(d, fft, 10);
    assert CentredSequence(first, fft) == ExpectedInterleaving[mode - 1];
  }

  /** The kept values among the leading terms of A, per mode. */
  lemma LeadingKeptTerms(mode: Mode) returns (first: seq<int>)
    ensures first == KeepFilter(LcgTerms(FftLengthTable[mode - 1], LeadingTerms(mode)), FftLengthTable[mode - 1])
    ensures |first| == 10 && CentredSequence(first, FftLengthTable[mode - 1]) == ExpectedInterleaving[mode - 1]
  {
    if mode == 1 {
      first := LeadingKeptTermsModeI(mode);
    } else if mode == 2 {
      first := LeadingKeptTermsModeII(mode);
    } else if mode == 3 {
      first := LeadingKeptTermsModeIII(mode);
    } else {
      first := LeadingKeptTermsModeIV(mode);
    }
  }

  lemma LeadingKeptTermsModeI(mode: Mode) returns (first: seq<int>)
    requires mode == 1
    ensures first == KeepFilter(LcgTerms(FftLengthTable[mode - 1], LeadingTerms(mode)), FftLengthTable[mode - 1])
    ensures |first| == 10 && CentredSequence(first, FftLengthTable[mode - 1]) == ExpectedInterleaving[mode - 1]
  {
    KeptTermsOfLcg(FftLengthTable[mode - 1], LeadingTerms(mode));
    FirstKeptTermsModeI();
    ChronologicalModeI();
    first := [511, 1010, 1353, 1716, 291, 1037, 1704, 1297, 988, 1067];
    CentredLeadingModeI();
  }

  lemma CentredLeadingModeI()
    ensures CentredSequence([511, 1010, 1353, 1716, 291, 1037, 1704, 1297, 988, 1067], 2048) == [-513, -14, 329, 692, -733, 13, 680, 273, -36, 43]
  {
  }

  lemma LeadingKeptTermsModeII(mode: Mode) returns (first: seq<int>)
    requires mode == 2
    ensures first == KeepFilter(LcgTerms(FftLengthTable[mode - 1], LeadingTerms(mode)), FftLengthTable[mode - 1])
    ensures |first| == 10 && CentredSequence(first, FftLengthTable[mode - 1]) == ExpectedInterleaving[mode - 1]
  {
    KeptTermsOfLcg(FftLengthTable[mode - 1], LeadingTerms(mode));
    FirstKeptTermsModeII();
    ChronologicalModeII();
    first := [127, 242, 201, 180, 419, 397, 168, 263, 145, 171];
    CentredLeadingModeII();
  }

  lemma CentredLeadingModeII()
    ensures CentredSequence([127, 242, 201, 180, 419, 397, 168, 263, 145, 171], 512) == [-129, -14, -55, -76, 163, 141, -88, 7, -111, -85]
  {
  }

  lemma LeadingKeptTermsModeIII(mode: Mode) returns (first: seq<int>)
    requires mode == 3
    ensures first == KeepFilter(LcgTerms(FftLengthTable[mode - 1], LeadingTerms(mode)), FftLengthTable[mode - 1])
    ensures |first| == 10 && CentredSequence(first, FftLengthTable[mode - 1]) == ExpectedInterleaving[mode - 1]
  {
    KeptTermsOfLcg(FftLengthTable[mode - 1], LeadingTerms(mode));
    FirstKeptTermsModeIII();
    ChronologicalModeIII();
    first := [63, 114, 180, 99, 70, 205, 168, 199, 90, 209];
    CentredLeadingModeIII();
  }

  lemma CentredLeadingModeIII()
    ensures CentredSequence([63, 114, 180, 99, 70, 205, 168, 199, 90, 209], 256) == [-65, -14, 52, -29, -58, 77, 40, 71, -38, 81]
  {
  }

  lemma LeadingKeptTermsModeIV(mode: Mode) returns (first: seq<int>)
    requires mode == 4
    ensures first == KeepFilter(LcgTerms(FftLengthTable[mode - 1], LeadingTerms(mode)), FftLengthTable[mode - 1])
    ensures |first| == 10 && CentredSequence(first, FftLengthTable[mode - 1]) == ExpectedInterleaving[mode - 1]
  {
    KeptTermsOfLcg(FftLengthTable[mode - 1], LeadingTerms(mode));
    FirstKeptTermsModeIV();
    ChronologicalModeIV();
    first := [255, 498, 585, 692, 710, 269, 680, 730, 529, 811];
    CentredLeadingModeIV();
  }

  lemma CentredLeadingModeIV()
    ensures CentredSequence([255, 498, 585, 692, 710, 269, 680, 730, 529, 811], 1024) == [-257, -14, 73, 180, 198, -243, 168, 218, 17, 299]
  {
  }

  /** Centring commutes with taking a prefix. */
  lemma CentredPrefix(d: seq<int>, fft: int, n: nat)
    requires n <= |d|
    ensures CentredSequence(d, fft)[..n] == CentredSequence(d[..n], fft)
  {
  }

  // ---------------------------------------------------------------------
  // Phase reference symbol (clause 14.3.2)

  /** Column i of Tables 39 to 42, per mode (the 48 rows of mode I in groups of eight). */
  const PrnIColumns: seq<seq<Quarter>> := [
      [0, 1, 2, 3, 0, 1, 2, 3] + [0, 1, 2, 3, 0, 1, 2, 3] + [0, 1, 2, 3, 0, 1, 2, 3]
      + [0, 3, 2, 1, 0, 3, 2, 1] + [0, 3, 2, 1, 0, 3, 2, 1] + [0, 3, 2, 1, 0, 3, 2, 1],
      [0, 1, 2, 3, 0, 1, 2, 1, 0, 3, 2, 1],
      [0, 1, 2, 3, 2, 1],
      [0, 1, 2, 3, 0, 1, 2, 3, 0, 1, 2, 3, 0, 3, 2, 1, 0, 3, 2, 1, 0, 3, 2, 1]]

  /** Column n of Tables 39 to 42, per mode. */
  const PrnNColumns: seq<seq<Quarter>> := [
      [1, 2, 0, 1, 3, 2, 2, 3] + [2, 1, 2, 3, 1, 2, 3, 3] + [2, 2, 2, 1, 1, 3, 1, 2]
      + [3, 1, 1, 1, 2, 2, 1, 0] + [2, 2, 3, 3, 0, 2, 1, 3] + [3, 3, 3, 0, 3, 0, 1, 1],
      [2, 3, 2, 2, 1, 2, 0, 2, 2, 1, 0, 3],
      [2, 3, 0, 2, 2, 2],
      [0, 1, 1, 2, 2, 2, 0, 3, 3, 1, 3, 2, 0, 1, 0, 2, 0, 1, 2, 2, 2, 1, 3, 0]]

  /** A row [k_min, k_max, k', i, n] of Tables 39 to 42. */
  datatype PrnRow = PrnRow(kMin: int, kMax: int, kPrime: int, i: Quarter, n: Quarter)

  /**
   * k_min of row r, for a mode with `half` rows on each side of the DC
   * carrier: blocks of 32 carriers from -N/2 up to -1, then from 1 up to N/2.
   */
  function RowStart(half: int, r: int): int
  {
    if r < half then -32 * half + 32 * r else 1 + 32 * (r - half)
  }

  /** The number of rows on each side of the DC carrier: N/64. */
  function HalfRows(mode: Mode): (h: nat)
    ensures NumCarriersTable[mode - 1] == 64 * h && h > 0
  {
    if mode == 1 then 24 else if mode == 2 then 6 else if mode == 3 then 3 else 12
  }

  /** The table of a mode; its k_max and k' columns follow k_min, one block of 32 carriers per row. */
  function PrnKin(mode: Mode): (t: seq<PrnRow>)
    ensures |t| == 2 * HalfRows(mode)
  {
    var half := HalfRows(mode);
    var iColumn, nColumn := PrnIColumns[mode - 1], PrnNColumns[mode - 1];
    seq(2 * half, r requires 0 <= r < 2 * half =>
      PrnRow(RowStart(half, r), RowStart(half, r) + 31, RowStart(half, r), iColumn[r], nColumn[r]))
  }

  /** Table 43: h_{i,j}; each row repeats its first 16 values. */
  const PrnH0: seq<Quarter> := [0, 2, 0, 0, 0, 0, 1, 1, 2, 0, 0, 0, 2, 2, 1, 1]
  const PrnH1: seq<Quarter> := [0, 3, 2, 3, 0, 1, 3, 0, 2, 1, 2, 3, 2, 3, 3, 0]
  const PrnH2: seq<Quarter> := [0, 0, 0, 2, 0, 2, 1, 3, 2, 2, 0, 2, 2, 0, 1, 3]
  const PrnH3: seq<Quarter> := [0, 1, 2, 1, 0, 3, 3, 2, 2, 3, 2, 1, 2, 1, 3, 2]
  const PrnH: seq<seq<Quarter>> := [PrnH0 + PrnH0, PrnH1 + PrnH1, PrnH2 + PrnH2, PrnH3 + PrnH3]

  /** A carrier index of the mode other than the DC carrier. */
  predicate ActiveCarrier(mode: Mode, k: int)
  {
    k != 0 && -32 * HalfRows(mode) <= k <= 32 * HalfRows(mode)
  }

  /** The row index the lookup computes: (k + N/2) // 32 below the DC carrier, (k + N/2 - 1) // 32 above. */
  function RowIndexOf(half: int, k: int): int
  {
    if k < 0 then (k + 32 * half) / 32 else (k + 32 * half - 1) / 32
  }

  /** The k' the lookup computes: 32 (k // 32) below the DC carrier, 32 ((k - 1) // 32) + 1 above. */
  function KPrimeOf(k: int): int
  {
    if k < 0 then 32 * (k / 32) else 32 * ((k - 1) / 32) + 1
  }

  /** The computed row contains k and starts at the computed k'. */
  lemma RowOfCarrier(half: nat, k: int)
    requires k != 0 && -32 * half <= k <= 32 * half
    ensures 0 <= RowIndexOf(half, k) < 2 * half
    ensures RowStart(half, RowIndexOf(half, k)) == KPrimeOf(k) <= k <= KPrimeOf(k) + 31
  {
    var idx := RowIndexOf(half, k);
    if k < 0 {
      assert idx == k / 32 + half;
    } else {
      assert idx == (k - 1) / 32 + half;
    }
  }

  /** No two rows of a table overlap. */
  lemma RowsDisjoint(half: nat, k: int, r: int, r': int)
    requires 0 <= r < 2 * half && RowStart(half, r) <= k <= RowStart(half, r) + 31
    requires 0 <= r' < 2 * half && RowStart(half, r') <= k <= RowStart(half, r') + 31
    ensures r == r'
  {
  }

  /** (k', i, n) for carrier k, from the row index that the lookup computes. */
  function GetPrnKkIN(mode: Mode, k: int): (r: (int, Quarter, Quarter))
    requires ActiveCarrier(mode, k)
    ensures 0 <= k - r.0 < 32
  {
    var half := HalfRows(mode);
    RowOfCarrier(half, k);
    var row := PrnKin(mode)[RowIndexOf(half, k)];
    (KPrimeOf(k), row.i, row.n)
  }

  /**
   * The row the lookup picks is the one row of the table whose
   * [k_min, k_max] contains k, and the k' it returns is that row's k'.
   */
  lemma LookupFindsContainingRow(mode: Mode, k: int)
    requires ActiveCarrier(mode, k)
    ensures exists idx :: 0 <= idx < |PrnKin(mode)| && PrnKin(mode)[idx].kMin <= k <= PrnKin(mode)[idx].kMax
    ensures forall idx :: 0 <= idx < |PrnKin(mode)| && PrnKin(mode)[idx].kMin <= k <= PrnKin(mode)[idx].kMax ==>
      GetPrnKkIN(mode, k) == (PrnKin(mode)[idx].kPrime, PrnKin(mode)[idx].i, PrnKin(mode)[idx].n)
  {
    var half := HalfRows(mode);
    RowOfCarrier(half, k);
    var r := RowIndexOf(half, k);
    assert PrnKin(mode)[r].kMin <= k <= PrnKin(mode)[r].kMax;
    forall idx | 0 <= idx < |PrnKin(mode)| && PrnKin(mode)[idx].kMin <= k <= PrnKin(mode)[idx].kMax
      ensures idx == RowIndexOf(half, k)
    {
      RowsDisjoint(half, k, idx, RowIndexOf(half, k));
    }
  }

  /** phi_k = (h_{i, k-k'} + n) mod 4 for an active carrier k. */
  function PrnPhase(mode: Mode, k: int): Quarter
    requires ActiveCarrier(mode, k)
  {
    var r := GetPrnKkIN(mode, k);
    var phi := (PrnH[r.1][k - r.0] + r.2) % 4;
    phi
  }

  /** The carrier k of prn entry j: -N/2 .. -1 and then 1 .. N/2. */
  function CarrierOf(mode: Mode, j: int): int
  {
    var centre := 32 * HalfRows(mode);
    if j < centre then j - centre else j - centre + 1
  }

  /** Entry j of prn belongs to an active carrier, and the carriers ascend, skipping 0. */
  lemma CarriersAscend(mode: Mode, j: int)
    requires 0 <= j < NumCarriersTable[mode - 1]
    ensures ActiveCarrier(mode, CarrierOf(mode, j))
    ensures 0 < j ==> CarrierOf(mode, j - 1) < CarrierOf(mode, j)
  {
    assert NumCarriersTable[mode - 1] == 64 * HalfRows(mode);
  }

  /**
   * Entry j of prn belongs to a carrier of row j / 32, at offset j % 32 from
   * the row's k'; its phase is h of that row's i (given as i) at that offset
   * plus that row's n (given as n).
   */
  lemma PilotPhaseOfRow(mode: Mode, j: int, i: Quarter, n: Quarter)
    requires 0 <= j < 64 * HalfRows(mode)
    requires i == PrnIColumns[mode - 1][j / 32] && n == PrnNColumns[mode - 1][j / 32]
    ensures ActiveCarrier(mode, CarrierOf(mode, j))
    ensures PrnPhase(mode, CarrierOf(mode, j)) == (PrnH[i][j % 32] as int + n as int) % 4
  {
    var k := CarrierOf(mode, j);
    PilotCarrierRow(mode, j);
    LookupOfCarrier(mode, k);
    PhaseOfLookup(mode, k, i, j % 32, n);
  }

  /** The lookup's k' is KPrimeOf(k), and its i and n are those of the computed row. */
  lemma LookupOfCarrier(mode: Mode, k: int)
    requires ActiveCarrier(mode, k)
    ensures GetPrnKkIN(mode, k).0 == KPrimeOf(k)
    ensures GetPrnKkIN(mode, k).1 == PrnIColumns[mode - 1][RowIndexOf(HalfRows(mode), k)]
    ensures GetPrnKkIN(mode, k).2 == PrnNColumns[mode - 1][RowIndexOf(HalfRows(mode), k)]
  {
    RowOfCarrier(HalfRows(mode), k);
  }

  /** phi_k from the (k', i, n) the lookup returns for carrier k: h_{i, k - k'} + n, modulo 4. */
  lemma PhaseOfLookup(mode: Mode, k: int, i: Quarter, p: int, n: Quarter)
    requires ActiveCarrier(mode, k)
    requires k - GetPrnKkIN(mode, k).0 == p
    requires GetPrnKkIN(mode, k).1 == i && GetPrnKkIN(mode, k).2 == n
    ensures 0 <= p < 32
    ensures PrnPhase(mode, k) == (PrnH[i][p] as int + n as int) % 4
  {
  }

  /** The carrier of entry j lies in row j / 32, j % 32 above that row's k'. */
  lemma PilotCarrierRow(mode: Mode, j: int)
    requires 0 <= j < 64 * HalfRows(mode)
    ensures ActiveCarrier(mode, CarrierOf(mode, j))
    ensures RowIndexOf(HalfRows(mode), CarrierOf(mode, j)) == j / 32
    ensures CarrierOf(mode, j) - KPrimeOf(CarrierOf(mode, j)) == j % 32
  {
    var half := HalfRows(mode);
    var k := CarrierOf(mode, j);
    if j < 32 * half {
      assert k == j - 32 * half;
      assert k / 32 == j / 32 - half;
    } else {
      assert k == j - 32 * half + 1;
      assert (k - 1) / 32 == j / 32 - half;
    }
  }

  /** e^(j pi/2 phi): 1, j, -1, -j. */
  function Phasor(phi: Quarter): Complex
  {
    if phi == 0 then Complex(1.0, 0.0)
    else if phi == 1 then Complex(0.0, 1.0)
    else if phi == 2 then Complex(-1.0, 0.0)
    else Complex(0.0, -1.0)
  }

  /** Every phasor lies on the unit circle. */
  lemma PhasorOnUnitCircle(phi: Quarter)
    ensures Norm(Phasor(phi)) == 1.0
  {
  }

  /** Each step of the phase index is a quarter turn: multiplication by j swaps the parts and negates the new real part. */
  lemma PhasorQuarterTurn(phi: Quarter)
    ensures Phasor((phi + 1) % 4) == Complex(-Phasor(phi).im, Phasor(phi).re)
  {
  }

  /** The phase reference of the mode: one phasor per active carrier, in ascending carrier order. */
  function PrnOf(mode: Mode): (prn: seq<Complex>)
    ensures |prn| == NumCarriersTable[mode - 1]
  {
    seq(64 * HalfRows(mode), j requires 0 <= j < 64 * HalfRows(mode) => Phasor(PrnPhase(mode, CarrierOf(mode, j))))
  }

  /**
   * The prn loop: one entry per active carrier from -N/2 to N/2, each the
   * phasor of phi_k, built by appending.
   */
  method PrnSequence(mode: Mode) returns (prn: seq<Complex>)
    ensures prn == PrnOf(mode)
  {
    var half: int := HalfRows(mode);
    prn := [];
    var k := -32 * half;
    while k < 32 * half + 1
      invariant -32 * half <= k <= 32 * half + 1
      invariant |prn| == if k <= 0 then k + 32 * half else k + 32 * half - 1
      invariant prn == PrnOf(mode)[..|prn|]
    {
      if k != 0 {
        CarrierOfPosition(mode, |prn|, k);
        var z := PhaseReferenceEntry(mode, k);
        PrefixExtend(prn, PrnOf(mode), z);
        prn := prn + [z];
      }
      k := k + 1;
    }
  }

  /** The body of the prn loop for one active carrier: phi_k, then the phasor it selects. */
  method PhaseReferenceEntry(mode: Mode, k: int) returns (z: Complex)
    requires ActiveCarrier(mode, k)
    ensures z == Phasor(PrnPhase(mode, k))
  {
    var phi := PrnPhase(mode, k);
    if phi == 0 {
      z := Complex(1.0, 0.0);
    } else if phi == 1 {
      z := Complex(0.0, 1.0);
    } else if phi == 2 {
      z := Complex(-1.0, 0.0);
    } else {
      z := Complex(0.0, -1.0);
    }
  }

  /** The entry appended for carrier k sits at position k + N/2 (less one above the DC carrier). */
  lemma CarrierOfPosition(mode: Mode, j: int, k: int)
    requires k != 0 && -32 * HalfRows(mode) <= k <= 32 * HalfRows(mode)
    requires j == if k < 0 then k + 32 * HalfRows(mode) else k + 32 * HalfRows(mode) - 1
    ensures CarrierOf(mode, j) == k && ActiveCarrier(mode, k)
  {
  }

  /** The A loop: A = [0], then append (13 A[-1] + fft/4 - 1) mod fft while fewer than fft terms. */
  method CongruentialSequence(fft: nat) returns (a: seq<int>)
    requires fft > 0
    ensures |a| == fft
    ensures forall i :: 0 <= i < fft ==> a[i] == Lcg(13, fft / 4 - 1, fft, i)
  {
    var c := fft / 4 - 1;
    a := [0];
    var i := 1;
    while i < fft
      invariant 1 <= i <= fft && a == LcgTerms(fft, i)
    {
      a := a + [(13 * a[|a| - 1] + c) % fft];
      i := i + 1;
    }
    LcgTermsAt(fft, fft);
  }

  // ---------------------------------------------------------------------
  // The parameter object

  class Parameters {
    var mode: Mode
    var symbolsPerFrame: int
    var numCarriers: int
    var frameLength: int
    var nsLength: int
    var symbolLength: int
    var fftLength: int
    var cpLength: int
    var bytesPerFrame: int
    var numFibs: int
    var numCifs: int
    var prn: seq<Complex>
    var frequencyInterleavingSequence: seq<int>
    var frequencyInterleavingSequenceArray: seq<int>
    var frequencyDeinterleavingSequenceArray: seq<int>

    /** The fields as __update_parameters__ leaves them for the current mode. */
    ghost predicate Current()
      reads this
    {
      TablesCurrent() && PrnCurrent() && InterleavingCurrent()
    }

    /** The scalar parameters are the mode's row of the tables. */
    ghost predicate TablesCurrent()
      reads this`mode, this`symbolsPerFrame, this`numCarriers, this`frameLength, this`nsLength, this`symbolLength,
        this`fftLength, this`cpLength, this`bytesPerFrame, this`numFibs, this`numCifs
    {
      var m := mode - 1;
      symbolsPerFrame == SymbolsPerFrameTable[m] && numCarriers == NumCarriersTable[m]
      && frameLength == FrameLengthTable[m] && nsLength == NsLengthTable[m]
      && symbolLength == SymbolLengthTable[m] && fftLength == FftLengthTable[m]
      && cpLength == CpLengthTable[m]
      && bytesPerFrame == (symbolsPerFrame - 1) * numCarriers / 4
      && numFibs == NumFibsTable[m] && numCifs == NumCifsTable[m]
    }

    /** prn holds the phase reference of every active carrier, in ascending carrier order. */
    ghost predicate PrnCurrent()
      reads this`mode, this`prn
    {
      prn == PrnOf(mode)
    }

    /** The interleaving arrays are those of the mode, and they are mutually inverse permutations. */
    ghost predicate InterleavingCurrent()
      reads this`mode, this`frequencyInterleavingSequence, this`frequencyInterleavingSequenceArray,
        this`frequencyDeinterleavingSequenceArray
    {
      frequencyInterleavingSequence == InterleavingSequenceOf(mode)
      && frequencyInterleavingSequenceArray == InterleavingArrayOf(mode)
      && IsPermutation(frequencyInterleavingSequenceArray, NumCarriersTable[mode - 1])
      && frequencyDeinterleavingSequenceArray == Inverse(frequencyInterleavingSequenceArray, NumCarriersTable[mode - 1])
    }

    /** __init__: the mode is in 1..4 by its type; the sanity checks hold; then the update. */
    constructor (mode: Mode)
      ensures this.mode == mode && Current()
    {
      this.mode := mode;
      new;
      ModeTablesConsistent();
      UpdateParameters();
    }

    method SetMode(mode: Mode)
      modifies this
      ensures this.mode == mode && Current()
    {
      this.mode := mode;
      UpdateParameters();
    }

    /**
     * __update_parameters__ at the default sample rate. Its assertions (the
     * length of D, the leading values, the permutation checks) are proved
     * here rather than checked at run time.
     */
    method UpdateParameters()
      modifies this
      ensures mode == old(mode) && Current()
    {
      SetTableFields();
      SetPrn();
      assert TablesCurrent();
      SetInterleaving();
      assert TablesCurrent() && PrnCurrent();
    }

    /** The prn loop of __update_parameters__. */
    method SetPrn()
      modifies this`prn
      ensures PrnCurrent()
    {
      prn := PrnSequence(mode);
    }

    /** The interleaving computation of __update_parameters__. */
    method SetInterleaving()
      modifies this`frequencyInterleavingSequence, this`frequencyInterleavingSequenceArray,
        this`frequencyDeinterleavingSequenceArray
      ensures InterleavingCurrent()
    {
      frequencyInterleavingSequence, frequencyInterleavingSequenceArray, frequencyDeinterleavingSequenceArray
        := InterleavingArrays(mode);
    }

    /** The scalar assignments of __update_parameters__. */
    method SetTableFields()
      modifies this`symbolsPerFrame, this`numCarriers, this`frameLength, this`nsLength, this`symbolLength,
        this`fftLength, this`cpLength, this`bytesPerFrame, this`numFibs, this`numCifs
      ensures TablesCurrent()
    {
      var m := mode - 1;
      symbolsPerFrame, numCarriers, frameLength, nsLength, symbolLength, fftLength, cpLength :=
        SymbolsPerFrameTable[m], NumCarriersTable[m], FrameLengthTable[m], NsLengthTable[m],
        SymbolLengthTable[m], FftLengthTable[m], CpLengthTable[m];
      bytesPerFrame := (symbolsPerFrame - 1) * numCarriers / 4;
      numFibs, numCifs := NumFibsTable[m], NumCifsTable[m];
    }
  }

  /**
   * The interleaving part of __update_parameters__: A by the congruential
   * loop, D by the filter, then the centred sequence, the array and its
   * inverse. The run-time assertions on D and the array are proved.
   */
  method InterleavingArrays(mode: Mode) returns (fis: seq<int>, arr: seq<int>, deint: seq<int>)
    ensures fis == InterleavingSequenceOf(mode) && arr == InterleavingArrayOf(mode)
    ensures |fis| == NumCarriersTable[mode - 1]
    ensures IsPermutation(arr, NumCarriersTable[mode - 1])
    ensures deint == Inverse(arr, NumCarriersTable[mode - 1])
  {
    var fft := FftLengthTable[mode - 1];
    var a := CongruentialSequence(fft);
    LcgTermsAt(fft, fft);
    assert a == LcgTerms(fft, fft);
    var d := KeepFilter(a, fft);
    InterleavingIsPermutation(mode);
    fis := CentredSequence(d, fft);
    arr := ArrayIndices(fis, NumCarriersTable[mode - 1]);
    deint := Inverse(arr, NumCarriersTable[mode - 1]);
  }

  /** The deinterleaving array undoes the interleaving array, from both sides. */
  lemma DeinterleavingInvertsInterleaving(mode: Mode)
    ensures var arr := InterleavingArrayOf(mode);
      IsPermutation(arr, NumCarriersTable[mode - 1])
      && var deint := Inverse(arr, NumCarriersTable[mode - 1]);
      (forall j :: 0 <= j < |arr| ==> deint[arr[j]] == j)
      && (forall x :: 0 <= x < |deint| ==> arr[deint[x]] == x)
  {
    InterleavingIsPermutation(mode);
    InverseIsInverse(InterleavingArrayOf(mode), NumCarriersTable[mode - 1]);
  }
}
