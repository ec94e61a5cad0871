/** Permutations of 0..n-1 and the first-occurrence index, as used by the interleaving tables. */
module Sequences {
  /** Every entry lies in [0, n). */
  predicate InRange(s: seq<int>, n: int)
  {
    forall i :: 0 <= i < |s| ==> 0 <= s[i] < n
  }

  /** No value occurs twice. */
  predicate Distinct(s: seq<int>)
  {
    forall i, j :: 0 <= i < j < |s| ==> s[i] != s[j]
  }

  /** s lists each of 0..n-1 exactly once. */
  predicate IsPermutation(s: seq<int>, n: nat)
  {
    |s| == n && InRange(s, n) && Distinct(s)
  }

  /** Python's list.index: the position of the first occurrence of x in s. */
  function IndexOf(s: seq<int>, x: int): (r: nat)
    requires x in s
    ensures r < |s| && s[r] == x
    ensures forall j :: 0 <= j < r ==> s[j] != x
  {
    if s[0] == x then 0 else 1 + IndexOf(s[1..], x)
  }

  /** The set {0, ..., n-1}. */
  function Range(n: nat): (r: set<int>)
    ensures forall x :: x in r <==> 0 <= x < n
    ensures |r| == n
  {
    if n == 0 then {} else Range(n - 1) + {n - 1}
  }

  function Elements(s: seq<int>): set<int>
  {
    set i | 0 <= i < |s| :: s[i]
  }

  /** A sequence of distinct values has as many elements as its length. */
  lemma {:induction false} DistinctCardinality(s: seq<int>)
    requires Distinct(s)
    ensures |Elements(s)| == |s|
  {
    if |s| > 0 {
      var t := s[..|s| - 1];
      assert Distinct(t);
      DistinctCardinality(t);
      assert Elements(s) == Elements(t) + {s[|s| - 1]};
      assert s[|s| - 1] !in Elements(t);
    }
  }

  /**
   * Pigeonhole: n distinct values in [0, n) are a permutation, so every value
   * in [0, n) occurs.
   */
  lemma {:induction false} DistinctInRangeCovers(s: seq<int>, n: nat)
    requires IsPermutation(s, n)
    ensures forall x :: 0 <= x < n ==> x in s
  {
    forall x | 0 <= x < n ensures x in s {
      PermutationContains(s, n, x);
    }
  }

  lemma PermutationContains(s: seq<int>, n: nat, x: int)
    requires IsPermutation(s, n) && 0 <= x < n
    ensures x in s
  {
    if x !in s {
      DistinctCardinality(s);
      var missing := Range(n) - {x};
      assert |missing| == n - 1;
      assert Elements(s) <= missing;
      SubsetCardinality(Elements(s), missing);
    }
  }

  lemma SubsetCardinality(a: set<int>, b: set<int>)
    requires a <= b
    ensures |a| <= |b|
  {
    assert b == a + (b - a);
  }

  /** The inverse of a permutation: Inverse(s)[s[j]] == j. */
  function Inverse(s: seq<int>, n: nat): (r: seq<int>)
    requires IsPermutation(s, n)
    ensures |r| == n
  {
    DistinctInRangeCovers(s, n);
    seq(n, x requires 0 <= x < n => IndexOf(s, x))
  }

  /** The inverse undoes s from both sides and is itself a permutation. */
  lemma InverseIsInverse(s: seq<int>, n: nat)
    requires IsPermutation(s, n)
    ensures forall j :: 0 <= j < n ==> Inverse(s, n)[s[j]] == j
    ensures forall x :: 0 <= x < n ==> s[Inverse(s, n)[x]] == x
    ensures IsPermutation(Inverse(s, n), n)
  {
    var inv := Inverse(s, n);
    DistinctInRangeCovers(s, n);
    forall j | 0 <= j < n ensures inv[s[j]] == j {
      var k := IndexOf(s, s[j]);
      assert s[k] == s[j];
    }
    forall x | 0 <= x < n ensures s[inv[x]] == x { }
    forall a, b | 0 <= a < b < n ensures inv[a] != inv[b] {
      assert s[inv[a]] == a && s[inv[b]] == b;
    }
  }

  /** Appending the next element of `full` to a prefix of it gives the next prefix. */
  lemma PrefixExtend<T>(prefix: seq<T>, full: seq<T>, x: T)
    requires |prefix| < |full| && prefix == full[..|prefix|] && x == full[|prefix|]
    ensures prefix + [x] == full[..|prefix| + 1]
  {
  }
}
