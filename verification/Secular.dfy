/** common/gsprt.cpp, secular: the root of sum p_i a_i / (1 + x a_i) between the poles next to zero,
    by bisection. In exact reals. */
module Secular {
  import opened Schema
  import opened Vectors

  function Den(a: real, x: real): real { 1.0 + x * a }

  function Term(p: real, a: real, x: real): real
    requires Den(a, x) > 0.0
  {
    p * a / Den(a, x)
  }

  predicate InDomain(a: Vec, x: real) { forall i | 0 <= i < 5 :: Den(a[i], x) > 0.0 }

  function Terms(a: Vec, p: Vec, x: real): Vec
    requires InDomain(a, x)
  {
    seq(5, i requires 0 <= i < 5 && InDomain(a, x) => Term(p[i], a[i], x))
  }

  /** The secular function. */
  function F(a: Vec, p: Vec, x: real): real
    requires InDomain(a, x)
  {
    Sum(Terms(a, p, x))
  }

  /** Comparing two fractions by their cross products. */
  lemma CompareQuotients(s: real, u: real, w: real)
    requires u > 0.0 && w > 0.0
    ensures s * w >= s * u ==> s / u >= s / w
    ensures s * w > s * u ==> s / u > s / w
  {
    var x, y := s / u, s / w;
    assert x * u == s && y * w == s;
    MulPositive(u, w);
    assert x * (u * w) == s * w && y * (u * w) == s * u;
    if x < y {
      MulLess(u * w, x, y);
    }
  }

  // ---------------------------------------------------------------------------
  // Strictly decreasing
  // ---------------------------------------------------------------------------

  lemma TermDecreases(p: real, a: real, x: real, y: real)
    requires p > 0.0 && x < y && Den(a, x) > 0.0 && Den(a, y) > 0.0
    ensures Term(p, a, x) >= Term(p, a, y)
    ensures a != 0.0 ==> Term(p, a, x) > Term(p, a, y)
  {
    var u, w, d := Den(a, x), Den(a, y), y - x;
    assert w - u == d * a;
    var gain := (p * a) * (w - u);
    assert gain == (p * d) * (a * a);
    MulPositive(p, d);
    if a != 0.0 {
      Square(a);
      MulPositive(p * d, a * a);
    }
    assert (p * a) * w - (p * a) * u == gain;
    CompareQuotients(p * a, u, w);
  }

  ghost predicate SomeNonzero(a: Vec) { exists i :: 0 <= i < 5 && a[i] != 0.0 }

  /** Between its poles the secular function is strictly decreasing. */
  lemma Decreasing(a: Vec, p: Vec, x: real, y: real)
    requires Positive(p) && InDomain(a, x) && InDomain(a, y) && x < y && SomeNonzero(a)
    ensures F(a, p, x) > F(a, p, y)
  {
    forall i | 0 <= i < 5
      ensures Terms(a, p, x)[i] >= Terms(a, p, y)[i]
      ensures a[i] != 0.0 ==> Terms(a, p, x)[i] > Terms(a, p, y)[i]
    {
      TermDecreases(p[i], a[i], x, y);
    }
    var i :| 0 <= i < 5 && a[i] != 0.0;
    assert Terms(a, p, x)[i] > Terms(a, p, y)[i];
    SumOrder(Terms(a, p, y), Terms(a, p, x));
  }

  ghost predicate IsRoot(a: Vec, p: Vec, x: real) { InDomain(a, x) && F(a, p, x) == 0.0 }

  /** So its root is unique. */
  lemma UniqueRoot(a: Vec, p: Vec, x: real, y: real)
    requires Positive(p) && IsRoot(a, p, x) && IsRoot(a, p, y) && SomeNonzero(a)
    ensures x == y
  {
    if x < y {
      Decreasing(a, p, x, y);
    } else if y < x {
      Decreasing(a, p, y, x);
    }
  }

  // ---------------------------------------------------------------------------
  // The poles
  // ---------------------------------------------------------------------------

  /** The support lies on both sides of zero. */
  predicate Straddles(a: Vec) {
    (exists i | 0 <= i < 5 :: a[i] < 0.0) && (exists i | 0 <= i < 5 :: a[i] > 0.0)
  }

  lemma StraddlesByExtremes(a: Vec)
    ensures Straddles(a) <==> Least(a) < 0.0 < Greatest(a)
  {
    if Least(a) < 0.0 < Greatest(a) {
      var i :| 0 <= i < 5 && a[i] == Least(a);
      var j :| 0 <= j < 5 && a[j] == Greatest(a);
    }
  }

  function LeftPole(a: Vec): real
    requires Straddles(a)
  {
    -1.0 / Greatest(a)
  }

  function RightPole(a: Vec): real
    requires Straddles(a)
  {
    -1.0 / Least(a)
  }

  lemma Reciprocal(d: real)
    requires d > 0.0
    ensures 1.0 / d > 0.0 && d * (1.0 / d) == 1.0
  {
  }

  lemma Poles(v: real, w: real)
    requires v < 0.0 < w
    ensures -1.0 / w < 0.0 < -1.0 / v
    ensures w * (-1.0 / w) == -1.0 && -v * (-1.0 / v) == 1.0
  {
    Reciprocal(w);
    Reciprocal(-v);
    assert -1.0 / w == -(1.0 / w);
    assert -1.0 / v == 1.0 / -v;
  }

  lemma PolesOf(a: Vec) returns (v: real, w: real, l: real, r: real)
    requires Straddles(a)
    ensures v == Least(a) && w == Greatest(a) && l == LeftPole(a) && r == RightPole(a)
    ensures v < 0.0 < w && l < 0.0 < r && w * l == -1.0 && -v * r == 1.0
    ensures v in a && w in a && forall i | 0 <= i < 5 :: v <= a[i] <= w
  {
    v, w, l, r := Least(a), Greatest(a), LeftPole(a), RightPole(a);
    Poles(v, w);
  }

  lemma InsideRight(v: real, e: real, r: real, x: real)
    requires v <= e && v < 0.0 && -v * r == 1.0 && 0.0 <= x < r
    ensures Den(e, x) > 0.0
  {
    var xe, xv, vx, vr := x * e, x * v, (-v) * x, (-v) * r;
    MulOrder(x, v, e);
    assert xv <= xe;
    MulLess(-v, x, r);
    assert vx < vr && xv == -vx;
    assert Den(e, x) == 1.0 + xe;
  }

  lemma InsideLeft(w: real, e: real, l: real, x: real)
    requires e <= w && w > 0.0 && w * l == -1.0 && l < x <= 0.0
    ensures Den(e, x) > 0.0
  {
    var xe, xw, wx, wl := x * e, x * w, w * x, w * l;
    MulOrder(-x, e, w);
    assert (-x) * e == -xe && (-x) * w == -xw;
    MulLess(w, l, x);
    assert wl < wx && xw == wx;
    assert Den(e, x) == 1.0 + xe;
  }

  lemma OutsideLeft(w: real, l: real, x: real)
    requires w > 0.0 && w * l == -1.0 && x <= l
    ensures Den(w, x) <= 0.0
  {
    var wx, wl := w * x, w * l;
    MulOrder(w, x, l);
    assert wx <= wl && x * w == wx;
  }

  lemma OutsideRight(v: real, r: real, x: real)
    requires v < 0.0 && -v * r == 1.0 && r <= x
    ensures Den(v, x) <= 0.0
  {
    var vx, vr := (-v) * x, (-v) * r;
    MulOrder(-v, r, x);
    assert vr <= vx && x * v == -vx;
  }

  lemma InsideAll(a: Vec, v: real, w: real, l: real, r: real, x: real)
    requires v < 0.0 < w && w * l == -1.0 && -v * r == 1.0 && l < x < r
    requires forall i | 0 <= i < 5 :: v <= a[i] <= w
    ensures InDomain(a, x)
  {
    forall i | 0 <= i < 5 ensures Den(a[i], x) > 0.0 {
      if x >= 0.0 {
        InsideRight(v, a[i], r, x);
      } else {
        InsideLeft(w, a[i], l, x);
      }
    }
  }

  lemma Inside(a: Vec, x: real)
    requires Straddles(a) && LeftPole(a) < x < RightPole(a)
    ensures InDomain(a, x)
  {
    var v, w, l, r := PolesOf(a);
    InsideAll(a, v, w, l, r, x);
  }

  lemma OutsideSome(a: Vec, v: real, w: real, l: real, r: real, x: real)
    requires v < 0.0 < w && w * l == -1.0 && -v * r == 1.0 && !(l < x < r)
    requires v in a && w in a
    ensures !InDomain(a, x)
  {
    if x <= l {
      OutsideLeft(w, l, x);
      var i :| 0 <= i < 5 && a[i] == w;
    } else {
      OutsideRight(v, r, x);
      var j :| 0 <= j < 5 && a[j] == v;
    }
  }

  lemma Outside(a: Vec, x: real)
    requires Straddles(a) && !(LeftPole(a) < x < RightPole(a))
    ensures !InDomain(a, x)
  {
    var v, w, l, r := PolesOf(a);
    OutsideSome(a, v, w, l, r, x);
  }

  /** The denominators are positive exactly between the two poles next to zero. */
  lemma Domain(a: Vec, x: real)
    requires Straddles(a)
    ensures InDomain(a, x) <==> LeftPole(a) < x < RightPole(a)
  {
    if LeftPole(a) < x < RightPole(a) {
      Inside(a, x);
    } else {
      Outside(a, x);
    }
  }

  // ---------------------------------------------------------------------------
  // Bisection
  // ---------------------------------------------------------------------------

  const EPSILON: real := 0.000000001

  /** The first bracket. */
  function Lo(a: Vec): real
    requires Straddles(a)
  {
    LeftPole(a) + EPSILON
  }

  function Hi(a: Vec): real
    requires Straddles(a)
  {
    RightPole(a) - EPSILON
  }

  /** What the bisection converges to: the root if it lies in the first bracket, which leaves out epsilon
      next to each pole, and otherwise the bracket's end on its side. An empty bracket is not halved. */
  ghost predicate IsLimit(a: Vec, p: Vec, x: real)
    requires Straddles(a)
  {
    && InDomain(a, x)
    && if Lo(a) < Hi(a) then
         && Lo(a) <= x <= Hi(a)
         && (F(a, p, x) == 0.0 || (x == Lo(a) && F(a, p, x) < 0.0) || (x == Hi(a) && F(a, p, x) > 0.0))
       else x == 0.5 * (Lo(a) + Hi(a))
  }

  /** An end of the bracket that has moved has the root on its other side. */
  ghost predicate Brackets(a: Vec, p: Vec, lo: real, hi: real)
    requires Straddles(a)
  {
    && (lo == Lo(a) || (InDomain(a, lo) && F(a, p, lo) > 0.0))
    && (hi == Hi(a) || (InDomain(a, hi) && F(a, p, hi) <= 0.0))
  }

  lemma StraddlesNonzero(a: Vec)
    requires Straddles(a)
    ensures SomeNonzero(a)
  {
    var i :| 0 <= i < 5 && a[i] == Greatest(a);
  }

  /** A root lies in the bracket, or within epsilon of an end that never moved. */
  lemma RootWithin(a: Vec, p: Vec, lo: real, hi: real, r: real)
    requires Positive(p) && Straddles(a) && IsRoot(a, p, r) && Brackets(a, p, lo, hi)
    ensures lo - EPSILON < r < hi + EPSILON
    ensures Lo(a) <= r <= Hi(a) ==> lo <= r <= hi
  {
    Domain(a, r);
    StraddlesNonzero(a);
    if lo != Lo(a) && r < lo {
      Decreasing(a, p, r, lo);
    }
    if hi != Hi(a) && hi < r {
      Decreasing(a, p, hi, r);
    }
  }

  /** The width of the bracket after n halvings. */
  function Width(a: Vec, n: nat): real
    requires Straddles(a)
  {
    (Hi(a) - Lo(a)) / Pow2(n)
  }

  lemma HalfWidth(w: real, k: real)
    requires k >= 1.0
    ensures w / (2.0 * k) == 0.5 * (w / k)
    ensures w > 0.0 ==> w / k > 0.0
  {
    var x, y := w / k, w / (2.0 * k);
    assert x * k == w && y * (2.0 * k) == w;
    assert (0.5 * x) * (2.0 * k) == w;
    assert (y - 0.5 * x) * (2.0 * k) == 0.0;
    if y - 0.5 * x != 0.0 {
      Square(y - 0.5 * x);
    }
  }

  lemma Halving(a: Vec, n: nat)
    requires Straddles(a)
    ensures Width(a, n + 1) == 0.5 * Width(a, n)
    ensures Lo(a) < Hi(a) ==> Width(a, n) > 0.0
  {
    HalfWidth(Hi(a) - Lo(a), Pow2(n));
  }

  /** How far the result of n halvings may be from root r: half the last bracket if r lies in the
      first one, and epsilon more if not; epsilon alone if the first bracket is empty. */
  ghost predicate Near(a: Vec, n: nat, x: real, r: real)
    requires Straddles(a)
  {
    if Lo(a) >= Hi(a) then Abs(x - r) <= EPSILON
    else if Lo(a) <= r <= Hi(a) then Abs(x - r) <= Width(a, n + 1)
    else Abs(x - r) <= Width(a, n + 1) + EPSILON
  }

  /** What the loop keeps: each halving halves the bracket, and an empty first bracket stays. */
  ghost predicate Shrunk(a: Vec, n: nat, lo: real, hi: real)
    requires Straddles(a)
  {
    if Lo(a) < Hi(a) then Lo(a) <= lo < hi <= Hi(a) && hi - lo == Width(a, n)
    else lo == Lo(a) && hi == Hi(a)
  }

  lemma MidInside(a: Vec, n: nat, lo: real, hi: real)
    requires Straddles(a) && Shrunk(a, n, lo, hi)
    ensures InDomain(a, 0.5 * (lo + hi))
    ensures lo < hi ==> lo < 0.5 * (lo + hi) < hi
    ensures lo < hi ==> Shrunk(a, n + 1, 0.5 * (lo + hi), hi) && Shrunk(a, n + 1, lo, 0.5 * (lo + hi))
  {
    var v, w, l, r := PolesOf(a);
    Halving(a, n);
    Inside(a, 0.5 * (lo + hi));
  }

  lemma ResultIsNear(a: Vec, p: Vec, n: nat, lo: real, hi: real, r: real)
    requires Positive(p) && Straddles(a) && Shrunk(a, n, lo, hi) && Brackets(a, p, lo, hi) && IsRoot(a, p, r)
    ensures Near(a, n, 0.5 * (lo + hi), r)
  {
    RootWithin(a, p, lo, hi, r);
    Halving(a, n);
  }

  /** The limit is never left out. */
  lemma LimitWithin(a: Vec, p: Vec, n: nat, lo: real, hi: real, c: real)
    requires Positive(p) && Straddles(a) && Lo(a) < Hi(a) && Shrunk(a, n, lo, hi) && Brackets(a, p, lo, hi) && IsLimit(a, p, c)
    ensures lo <= c <= hi
  {
    StraddlesNonzero(a);
    if c < lo {
      Decreasing(a, p, c, lo);
    }
    if hi < c {
      Decreasing(a, p, hi, c);
    }
  }

  lemma ResultNearsLimit(a: Vec, p: Vec, n: nat, lo: real, hi: real, c: real)
    requires Positive(p) && Straddles(a) && Shrunk(a, n, lo, hi) && Brackets(a, p, lo, hi) && IsLimit(a, p, c)
    ensures if Lo(a) < Hi(a) then Abs(0.5 * (lo + hi) - c) <= Width(a, n + 1) else 0.5 * (lo + hi) == c
  {
    Halving(a, n);
    if Lo(a) < Hi(a) {
      LimitWithin(a, p, n, lo, hi, c);
    }
  }

  lemma Signs(v: real, w: real)
    requires v <= w
    ensures v * w >= 0.0 <==> !(v < 0.0 < w)
  {
    if v < 0.0 < w {
      MulPositive(-v, w);
    } else if v >= 0.0 {
      MulOrder(v, 0.0, w);
    } else {
      MulOrder(-v, w, 0.0);
    }
  }

  /** secular, with the number of halvings as a parameter (the source's is 200); None where it throws. */
  method Bisect(a: Vec, p: Vec, iterations: nat) returns (x: Option<real>)
    requires Positive(p)
    ensures x.Some? <==> Straddles(a)
    ensures x.Some? ==> InDomain(a, x.value)
    ensures x.Some? ==> forall r | IsRoot(a, p, r) :: Near(a, iterations, x.value, r)
    ensures x.Some? ==> forall c | IsLimit(a, p, c) ::
              if Lo(a) < Hi(a) then Abs(x.value - c) <= Width(a, iterations + 1) else x.value == c
  {
    var v, w := Least(a), Greatest(a);
    StraddlesByExtremes(a);
    Signs(v, w);
    if v * w >= 0.0 {
      return None;
    }
    var lo, hi := -1.0 / w + EPSILON, -1.0 / v - EPSILON;
    Start(a, lo, hi);
    var it := 0;
    while it < iterations
      invariant it <= iterations && Shrunk(a, it, lo, hi) && Brackets(a, p, lo, hi)
    {
      var mid := 0.5 * (lo + hi);
      MidInside(a, it, lo, hi);
      if mid <= lo || mid >= hi {
        EmptyStays(a, it, iterations, lo, hi);
        it := iterations;
        break;
      }
      if F(a, p, mid) > 0.0 {
        lo := mid;
      } else {
        hi := mid;
      }
      it := it + 1;
    }
    x := Some(0.5 * (lo + hi));
    MidInside(a, it, lo, hi);
    forall r | IsRoot(a, p, r) ensures Near(a, iterations, x.value, r) {
      ResultIsNear(a, p, iterations, lo, hi, r);
    }
    forall c | IsLimit(a, p, c)
      ensures if Lo(a) < Hi(a) then Abs(x.value - c) <= Width(a, iterations + 1) else x.value == c
    {
      ResultNearsLimit(a, p, iterations, lo, hi, c);
    }
  }

  lemma Start(a: Vec, lo: real, hi: real)
    requires Straddles(a) && lo == Lo(a) && hi == Hi(a)
    ensures Shrunk(a, 0, lo, hi)
  {
  }

  /** In exact arithmetic the loop breaks early only on an empty bracket. */
  lemma EmptyStays(a: Vec, n: nat, m: nat, lo: real, hi: real)
    requires Straddles(a) && Shrunk(a, n, lo, hi) && lo >= hi
    ensures Shrunk(a, m, lo, hi)
  {
  }
}
