/**
 * Number theory behind the frequency-interleaving rule of ETSI EN 300 401
 * clause 14.6: the linear congruential sequence A[0] = 0,
 * A[n] = (a*A[n-1] + c) mod 2^e with a = 1 (mod 4) and c odd visits every
 * residue exactly once in its first 2^e terms.
 */
module Congruential {
  function Pow2(e: nat): (r: nat)
    ensures r >= 1
  {
    if e == 0 then 1 else 2 * Pow2(e - 1)
  }

  function Pow(a: int, n: nat): int
  {
    if n == 0 then 1 else a * Pow(a, n - 1)
  }

  /** 1 + a + ... + a^(n-1), by Horner's rule. */
  function GeoSum(a: int, n: nat): int
  {
    if n == 0 then 0 else 1 + a * GeoSum(a, n - 1)
  }

  /** The congruential sequence, as the interleaving rule computes it. */
  function Lcg(a: int, c: int, m: nat, n: nat): (r: int)
    requires m > 0
    ensures 0 <= r < m
  {
    if n == 0 then 0 else (a * Lcg(a, c, m, n - 1) + c) % m
  }

  lemma ModOfMultiplePlus(x: int, k: int, m: int)
    requires m > 0
    ensures (x + k * m) % m == x % m
  {
    var y := x + k * m;
    var q, r := x / m, x % m;
    assert y == (q + k) * m + r;
    ModUnique(y, m, q + k, r);
  }

  /** Euclidean division is unique. */
  lemma ModUnique(y: int, m: int, q: int, r: int)
    requires m > 0 && 0 <= r < m && y == q * m + r
    ensures y % m == r
  {
    var q', r' := y / m, y % m;
    assert (q - q') * m == r' - r;
    if q > q' {
      ProductAtLeast(q - q', m);
    } else if q < q' {
      ProductAtLeast(q' - q, m);
    }
  }

  lemma ProductAtLeast(d: int, m: int)
    requires d >= 1 && m > 0
    ensures d * m >= m
  {
  }

  /** Equal residues differ by a multiple of the modulus. */
  lemma EqualResidues(x: int, y: int, m: int) returns (q: int)
    requires m > 0 && x % m == y % m
    ensures y - x == q * m
  {
    q := y / m - x / m;
    assert x == (x / m) * m + x % m;
    assert y == (y / m) * m + y % m;
  }

  lemma MulDistrib(a: int, b: int, c: int)
    ensures a * (b + c) == a * b + a * c
  {
  }

  lemma MulAssoc(a: int, b: int, c: int)
    ensures a * (b * c) == (a * b) * c
  {
  }

  /** Reducing the previous term modulo m does not change the next term. */
  lemma ModStep(a: int, c: int, m: int, y: int)
    requires m > 0
    ensures (a * (y % m) + c) % m == (a * y + c) % m
  {
    var q, r := y / m, y % m;
    assert y == q * m + r;
    MulDistrib(a, q * m, r);
    MulAssoc(a, q, m);
    assert a * r + c == (a * y + c) + (-(a * q)) * m;
    ModOfMultiplePlus(a * y + c, -(a * q), m);
  }

  lemma HornerStep(a: int, c: int, g: int)
    ensures a * (c * g) + c == c * (1 + a * g)
  {
    MulAssoc(a, c, g);
    MulDistrib(c, 1, a * g);
  }

  /** The closed form: A[n] = c * (1 + a + ... + a^(n-1)) mod m. */
  lemma {:induction false} LcgClosedForm(a: int, c: int, m: nat, n: nat)
    requires m > 0
    ensures Lcg(a, c, m, n) == (c * GeoSum(a, n)) % m
  {
    if n > 0 {
      LcgClosedForm(a, c, m, n - 1);
      var g := GeoSum(a, n - 1);
      assert Lcg(a, c, m, n) == (a * ((c * g) % m) + c) % m;
      assert (a * ((c * g) % m) + c) % m == (a * (c * g) + c) % m by {
        ModStep(a, c, m, c * g);
      }
      assert a * (c * g) + c == c * GeoSum(a, n) by {
        HornerStep(a, c, g);
      }
    }
  }

  /** Splitting the geometric sum: S(i + d) = S(i) + a^i * S(d). */
  lemma {:induction false} GeoSumShift(a: int, i: nat, d: nat)
    ensures GeoSum(a, i + d) == GeoSum(a, i) + Pow(a, i) * GeoSum(a, d)
  {
    if i > 0 {
      GeoSumShift(a, i - 1, d);
      var p, g, gd := Pow(a, i - 1), GeoSum(a, i - 1), GeoSum(a, d);
      assert GeoSum(a, i + d) == 1 + a * (g + p * gd);
      MulDistrib(a, g, p * gd);
      MulAssoc(a, p, gd);
      assert Pow(a, i) == a * p;
    }
  }

  predicate Odd(x: int) { x % 2 == 1 }

  /** Reducing the left factor modulo m does not change the product modulo m. */
  lemma MulModLeft(x: int, y: int, m: int)
    requires m > 0
    ensures (x * y) % m == ((x % m) * y) % m
  {
    var q, r := x / m, x % m;
    assert x * y == r * y + (q * y) * m by {
      assert x == q * m + r;
      MulDistrib(y, q * m, r);
      MulAssoc(y, q, m);
    }
    ModOfMultiplePlus(r * y, q * y, m);
  }

  /** Residues multiply: (x * y) mod m depends only on x mod m and y mod m. */
  lemma ModProduct(x: int, y: int, m: int)
    requires m > 0
    ensures (x * y) % m == ((x % m) * (y % m)) % m
  {
    var r := x % m;
    MulModLeft(x, y, m);
    MulModLeft(y, r, m);
    assert r * y == y * r;
    assert (y % m) * r == r * (y % m);
  }

  lemma OddProduct(x: int, y: int)
    requires Odd(x) && Odd(y)
    ensures Odd(x * y)
  {
    ModProduct(x, y, 2);
  }

  lemma {:induction false} PowOdd(a: int, n: nat)
    requires Odd(a)
    ensures Odd(Pow(a, n))
  {
    if n > 0 {
      PowOdd(a, n - 1);
      OddProduct(a, Pow(a, n - 1));
    }
  }

  /** A power of a number congruent to 1 modulo 4 is again congruent to 1. */
  lemma {:induction false} PowOneModFour(a: int, n: nat)
    requires a % 4 == 1
    ensures Pow(a, n) % 4 == 1
  {
    if n > 0 {
      PowOneModFour(a, n - 1);
      ModProduct(a, Pow(a, n - 1), 4);
    }
  }

  /** For odd a, the geometric sum of d terms has the parity of d. */
  lemma {:induction false} GeoSumParity(a: int, d: nat)
    requires Odd(a)
    ensures GeoSum(a, d) % 2 == d % 2
  {
    if d > 0 {
      GeoSumParity(a, d - 1);
      var g := GeoSum(a, d - 1);
      ModProduct(a, g, 2);
      var ag := a * g;
      assert ag % 2 == g % 2;
      assert 1 + ag == (1 + g % 2) + (ag / 2) * 2;
      ModOfMultiplePlus(1 + g % 2, ag / 2, 2);
    }
  }

  /** If an odd u times x is even, x is even, and halving x halves the product. */
  lemma HalveEvenProduct(u: int, x: int, w: int) returns (y: int)
    requires Odd(u) && u * x == 2 * w
    ensures x == 2 * y && u * y == w
  {
    var s := u / 2;
    assert u == 2 * s + 1;
    MulDistrib(x, 2 * s, 1);
    MulAssoc(x, 2, s);
    y := w - s * x;
    assert x == 2 * y;
    MulAssoc(u, 2, y);
  }

  lemma DoublePow2(q: int, e: nat)
    requires e > 0
    ensures q * Pow2(e) == 2 * (q * Pow2(e - 1))
  {
    MulAssoc(q, 2, Pow2(e - 1));
  }

  /** An odd factor does not help divisibility by a power of two. */
  lemma {:induction false} OddFactorDivides(u: int, x: int, e: nat, q: int) returns (q': int)
    requires Odd(u) && u * x == q * Pow2(e)
    ensures x == q' * Pow2(e)
    decreases e
  {
    if e == 0 {
      q' := x;
    } else {
      DoublePow2(q, e);
      var y := HalveEvenProduct(u, x, q * Pow2(e - 1));
      var q1 := OddFactorDivides(u, y, e - 1, q);
      DoublePow2(q1, e);
      q' := q1;
    }
  }

  lemma OneModFourIsOdd(a: int)
    requires a % 4 == 1
    ensures Odd(a)
  {
    var q := a / 4;
    assert a == (2 * q) * 2 + 1;
    ModUnique(a, 2, 2 * q, 1);
  }

  /** Half of 1 + p is odd when p = 1 (mod 4). */
  lemma HalfSuccessorOdd(p: int) returns (u: int)
    requires p % 4 == 1
    ensures Odd(u) && 1 + p == 2 * u
  {
    u := 2 * (p / 4) + 1;
  }

  /** S(2h) = 2 * u * S(h) with u = (1 + a^h) / 2 odd. */
  lemma GeoSumDouble(a: int, h: nat) returns (u: int)
    requires a % 4 == 1
    ensures Odd(u) && GeoSum(a, 2 * h) == 2 * (u * GeoSum(a, h))
  {
    var p, g := Pow(a, h), GeoSum(a, h);
    assert GeoSum(a, 2 * h) == g + p * g by { GeoSumShift(a, h, h); }
    PowOneModFour(a, h);
    u := HalfSuccessorOdd(p);
    assert g + p * g == (1 + p) * g by { MulDistrib(g, 1, p); }
    assert (2 * u) * g == 2 * (u * g) by { MulAssoc(2, u, g); }
  }

  /**
   * The 2-adic valuation of the geometric sum equals that of its length, so
   * 2^e does not divide S(d) for 0 < d < 2^e.
   */
  lemma {:induction false} GeoSumNotDivisible(a: int, d: nat, e: nat, q: int)
    requires a % 4 == 1 && 0 < d < Pow2(e)
    ensures GeoSum(a, d) != q * Pow2(e)
    decreases e
  {
    if GeoSum(a, d) == q * Pow2(e) {
      assert e > 0;
      DoublePow2(q, e);
      if d % 2 == 1 {
        OneModFourIsOdd(a);
        GeoSumParity(a, d);
        assert false;
      } else {
        var h := d / 2;
        var u := GeoSumDouble(a, h);
        var q1 := OddFactorDivides(u, GeoSum(a, h), e - 1, q);
        GeoSumNotDivisible(a, h, e - 1, q1);
      }
    }
  }

  /** The difference of two closed forms: c*S(i+d) - c*S(i) = (c*a^i) * S(d). */
  lemma ClosedFormDifference(a: int, c: int, i: nat, d: nat)
    ensures c * GeoSum(a, i + d) - c * GeoSum(a, i) == (c * Pow(a, i)) * GeoSum(a, d)
  {
    var g, p, gd := GeoSum(a, i), Pow(a, i), GeoSum(a, d);
    GeoSumShift(a, i, d);
    MulDistrib(c, g, p * gd);
    MulAssoc(c, p, gd);
  }

  /** Two equal terms of the sequence have closed forms that differ by a multiple of m. */
  lemma CollisionQuotient(a: int, c: int, m: nat, i: nat, j: nat) returns (q: int)
    requires m > 0 && Lcg(a, c, m, i) == Lcg(a, c, m, j)
    ensures c * GeoSum(a, j) - c * GeoSum(a, i) == q * m
  {
    LcgClosedForm(a, c, m, i);
    LcgClosedForm(a, c, m, j);
    q := EqualResidues(c * GeoSum(a, i), c * GeoSum(a, j), m);
  }

  /**
   * Full period: with a = 1 (mod 4) and c odd, the first 2^e terms of the
   * sequence are pairwise distinct.
   */
  lemma LcgDistinct(a: int, c: int, e: nat, i: nat, j: nat)
    requires a % 4 == 1 && Odd(c) && i < j < Pow2(e)
    ensures Lcg(a, c, Pow2(e), i) != Lcg(a, c, Pow2(e), j)
  {
    var m := Pow2(e);
    var d := j - i;
    if Lcg(a, c, m, i) == Lcg(a, c, m, j) {
      var q := CollisionQuotient(a, c, m, i, j);
      var w, gd := c * Pow(a, i), GeoSum(a, d);
      assert w * gd == q * m by { ClosedFormDifference(a, c, i, d); }
      OneModFourIsOdd(a);
      PowOdd(a, i);
      OddProduct(c, Pow(a, i));
      var q' := OddFactorDivides(w, gd, e, q);
      GeoSumNotDivisible(a, d, e, q');
    }
  }
}
