/** Vectors over the five pentanomial categories, in exact reals. */
module Vectors {

  type Vec = v: seq<real> | |v| == 5 witness [0.0, 0.0, 0.0, 0.0, 0.0]

  /** The sum of the first n entries, as the source's loops accumulate it. */
  function SumTo(v: Vec, n: nat): real
    requires n <= |v|
  {
    if n == 0 then 0.0 else SumTo(v, n - 1) + v[n - 1]
  }

  function Sum(v: Vec): real { SumTo(v, |v|) }

  lemma SumFive(v: Vec)
    ensures Sum(v) == v[0] + v[1] + v[2] + v[3] + v[4]
  {
    assert SumTo(v, 1) == SumTo(v, 0) + v[0];
    assert SumTo(v, 2) == SumTo(v, 1) + v[1];
    assert SumTo(v, 3) == SumTo(v, 2) + v[2];
    assert SumTo(v, 4) == SumTo(v, 3) + v[3];
    assert SumTo(v, 5) == SumTo(v, 4) + v[4];
  }

  function Reversed(v: Vec): Vec { seq(5, i requires 0 <= i < 5 => v[4 - i]) }

  lemma SumReversed(v: Vec)
    ensures Sum(Reversed(v)) == Sum(v)
  {
    SumFive(v);
    SumFive(Reversed(v));
  }

  predicate Positive(v: Vec) { forall i | 0 <= i < 5 :: v[i] > 0.0 }

  /** A probability distribution that gives no category probability zero. */
  predicate Distribution(v: Vec) { Positive(v) && Sum(v) == 1.0 }

  function Times(p: Vec, q: Vec): Vec { seq(5, i requires 0 <= i < 5 => p[i] * q[i]) }

  function Dot(p: Vec, q: Vec): real { Sum(Times(p, q)) }

  function Abs(x: real): (r: real)
    ensures r >= 0.0
  {
    if x < 0.0 then -x else x
  }

  function Max(x: real, y: real): real { if x < y then y else x }

  function Min(x: real, y: real): real { if y < x then y else x }

  /** std::max_element and std::min_element */
  function Greatest(v: Vec): (m: real)
    ensures m in v && forall i | 0 <= i < 5 :: v[i] <= m
  {
    Max(Max(Max(Max(v[0], v[1]), v[2]), v[3]), v[4])
  }

  function Least(v: Vec): (m: real)
    ensures m in v && forall i | 0 <= i < 5 :: m <= v[i]
  {
    Min(Min(Min(Min(v[0], v[1]), v[2]), v[3]), v[4])
  }

  function Pow2(n: nat): (r: real)
    ensures r >= 1.0
  {
    if n == 0 then 1.0 else 2.0 * Pow2(n - 1)
  }

  function Scale(x: real, v: Vec): Vec { seq(5, i requires 0 <= i < 5 => x * v[i]) }

  function Minus(v: Vec, w: Vec): Vec { seq(5, i requires 0 <= i < 5 => v[i] - w[i]) }

  lemma {:induction false} ScaleTo(x: real, v: Vec, n: nat)
    requires n <= |v|
    ensures SumTo(Scale(x, v), n) == x * SumTo(v, n)
  {
    if n > 0 {
      ScaleTo(x, v, n - 1);
      var s, e := SumTo(v, n - 1), v[n - 1];
      assert x * (s + e) == x * s + x * e;
    }
  }

  lemma SumScale(x: real, v: Vec)
    ensures Sum(Scale(x, v)) == x * Sum(v)
  {
    ScaleTo(x, v, |v|);
  }

  lemma {:induction false} MinusTo(v: Vec, w: Vec, n: nat)
    requires n <= 5
    ensures SumTo(Minus(v, w), n) == SumTo(v, n) - SumTo(w, n)
  {
    if n > 0 {
      MinusTo(v, w, n - 1);
    }
  }

  lemma SumMinus(v: Vec, w: Vec)
    ensures Sum(Minus(v, w)) == Sum(v) - Sum(w)
  {
    MinusTo(v, w, |v|);
  }

  lemma {:induction false} OrderTo(v: Vec, w: Vec, n: nat)
    requires n <= 5 && forall i | 0 <= i < n :: v[i] <= w[i]
    ensures SumTo(v, n) <= SumTo(w, n)
    ensures (exists i :: 0 <= i < n && v[i] < w[i]) ==> SumTo(v, n) < SumTo(w, n)
  {
    if n > 0 {
      OrderTo(v, w, n - 1);
    }
  }

  /** Sums keep the order of vectors that are ordered entry by entry. */
  lemma SumOrder(v: Vec, w: Vec)
    requires forall i | 0 <= i < 5 :: v[i] <= w[i]
    ensures Sum(v) <= Sum(w)
    ensures (exists i :: 0 <= i < 5 && v[i] < w[i]) ==> Sum(v) < Sum(w)
  {
    OrderTo(v, w, 5);
  }

  lemma MulOrder(c: real, x: real, y: real)
    requires c >= 0.0 && x <= y
    ensures c * x <= c * y
  {
  }

  lemma MulLess(c: real, x: real, y: real)
    requires c > 0.0 && x < y
    ensures c * x < c * y
  {
  }

  lemma MulPositive(x: real, y: real)
    requires x > 0.0 && y > 0.0
    ensures x * y > 0.0
  {
  }

  lemma MulMinus(c: real, x: real, y: real)
    ensures c * (x - y) == c * x - c * y
  {
  }

  lemma MulSwap(x: real, y: real, z: real)
    ensures (x * y) * z == (y * z) * x
  {
  }

  lemma Square(a: real)
    requires a != 0.0
    ensures a * a > 0.0
  {
    if a > 0.0 {
      MulPositive(a, a);
    } else {
      MulPositive(-a, -a);
    }
  }

  lemma SameQuotient(x: real, y: real, d: real)
    requires d > 0.0 && x * d == y * d
    ensures x == y
  {
    if x < y {
      MulLess(d, x, y);
    } else if y < x {
      MulLess(d, y, x);
    }
  }

  lemma RatioPositive(r: real, q: real)
    requires r > 0.0 && q > 0.0
    ensures r / q > 0.0 && (r / q) * q == r
  {
    if r / q <= 0.0 {
      MulOrder(q, r / q, 0.0);
    }
  }

  /** Rounding to the nearest whole number, scaled. */
  lemma ScaledFloor(x: real, d: real, k: int, p: real, q: real)
    requires d > 0.0 && k == (x + 0.5).Floor && p == k as real * d && q == x * d
    ensures -d < 2.0 * (p - q) <= d
  {
    Scaled(x, d, k as real, p, q);
  }

  lemma Scaled(x: real, d: real, z: real, p: real, q: real)
    requires d > 0.0 && x - 0.5 < z <= x + 0.5 && p == z * d && q == x * d
    ensures -d < 2.0 * (p - q) <= d
  {
    var u := x - z;
    assert d * u == q - p && -0.5 <= u < 0.5;
    MulLess(d, u, 0.5);
    MulOrder(d, -0.5, u);
  }

  lemma RealProduct(a: int, b: int)
    ensures (a * b) as real == a as real * (b as real)
  {
  }

  lemma WholeNumbers(a: int, b: int, d: int, x: real, y: real, z: real)
    requires x == a as real && y == b as real && z == d as real && -z < 2.0 * (x - y) <= z
    ensures -d < 2 * (a - b) <= d
  {
  }
}
