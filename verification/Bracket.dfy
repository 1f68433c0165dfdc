/** When the bisection of common/gsprt.cpp finds the root at all: its first bracket leaves out epsilon next
    to each pole, and a category that is nearly empty moves the root in there. In exact reals. */
module Bracket {
  import opened Vectors
  import opened Secular

  /** The least probability that keeps every root in the bracket. */
  const FLOOR: real := 0.00000000052

  predicate Ample(p: Vec) { forall i | 0 <= i < 5 :: p[i] >= FLOOR }

  /** The scores the bent constraint can take: those above the reference are at most half a point above
      it, or those below at most half a point below. */
  predicate OneSided(a: Vec) {
    (forall i | 0 <= i < 5 :: a[i] <= 0.5) || (forall i | 0 <= i < 5 :: a[i] >= -0.5)
  }

  lemma QuotientAtLeast(x: real, y: real, d: real)
    requires d > 0.0 && x >= y * d
    ensures x / d >= y
  {
    var q := x / d;
    assert q * d == x;
    if q < y {
      MulLess(d, q, y);
    }
  }

  lemma TermAtLeast(p: real, a: real, x: real)
    requires p > 0.0 && Den(a, x) > 0.0 && -a <= 0.51 * Den(a, x)
    ensures Term(p, a, x) >= -0.51 * p
  {
    MulOrder(p, -a, 0.51 * Den(a, x));
    assert p * a >= (-0.51 * p) * Den(a, x);
    QuotientAtLeast(p * a, -0.51 * p, Den(a, x));
  }

  lemma NegTerm(p: real, a: real, x: real)
    requires Den(a, x) > 0.0
    ensures Den(-a, -x) > 0.0 && Term(p, -a, -x) == -Term(p, a, x)
  {
    var d, y, z := Den(a, x), Term(p, a, x), Term(p, -a, -x);
    assert Den(-a, -x) == d;
    assert y * d == p * a && z * d == p * -a;
    assert (-y) * d == -(y * d) && p * -a == -(p * a);
    SameQuotient(z, -y, d);
  }

  lemma TermAtMost(p: real, a: real, x: real)
    requires p > 0.0 && Den(a, x) > 0.0 && a <= 0.51 * Den(a, x)
    ensures Term(p, a, x) <= 0.51 * p
  {
    NegTerm(p, a, x);
    assert Den(-a, -x) == Den(a, x);
    TermAtLeast(p, -a, -x);
  }

  /** The term of the pole next to which x lies. */
  lemma PoleTerm(p: real, w: real, l: real)
    requires p >= FLOOR && w > 0.0 && w * l == -1.0
    ensures Den(w, l + EPSILON) > 0.0 && Term(p, w, l + EPSILON) >= 0.52
  {
    var d := Den(w, l + EPSILON);
    assert (l + EPSILON) * w == -1.0 + EPSILON * w;
    assert d == EPSILON * w;
    MulPositive(EPSILON, w);
    MulOrder(w, FLOOR, p);
    QuotientAtLeast(p * w, 0.52, d);
  }

  lemma PoleTermRight(p: real, v: real, r: real)
    requires p >= FLOOR && v < 0.0 && -v * r == 1.0
    ensures Den(v, r - EPSILON) > 0.0 && Term(p, v, r - EPSILON) <= -0.52
  {
    assert -v * -r == -1.0;
    PoleTerm(p, -v, -r);
    assert -(-r + EPSILON) == r - EPSILON && -(-v) == v;
    NegTerm(p, -v, -r + EPSILON);
  }

  /** The other terms next to the left pole. */
  lemma LeftOthers(a: real, l: real, low: bool)
    requires l < 0.0 && (if low then l <= -2.0 else a >= -0.5) && Den(a, l + EPSILON) > 0.0
    ensures -a <= 0.51 * Den(a, l + EPSILON)
  {
    if a < 0.0 {
      if low {
        MulOrder(-a, l, -2.0);
        assert (l + EPSILON) * a == l * a + EPSILON * a;
      } else {
        MulOrder(-a, l, 0.0);
        assert (l + EPSILON) * a == l * a + EPSILON * a;
      }
    }
  }

  lemma RightOthers(a: real, r: real, high: bool)
    requires r > 0.0 && (if high then r >= 2.0 else a <= 0.5) && Den(a, r - EPSILON) > 0.0
    ensures a <= 0.51 * Den(a, r - EPSILON)
  {
    assert -(-r + EPSILON) == r - EPSILON;
    assert Den(-a, -r + EPSILON) == Den(a, r - EPSILON);
    LeftOthers(-a, -r, high);
  }

  /** One large entry outweighs all the others. */
  lemma Outweighs(v: Vec, p: Vec, j: nat)
    requires j < 5 && Positive(p) && Sum(p) == 1.0 && v[j] >= 0.52
    requires forall i | 0 <= i < 5 && i != j :: v[i] >= -0.51 * p[i]
    ensures Sum(v) > 0.0
  {
    SumFive(v);
    SumFive(p);
  }

  lemma OutweighsDown(v: Vec, p: Vec, j: nat)
    requires j < 5 && Positive(p) && Sum(p) == 1.0 && v[j] <= -0.52
    requires forall i | 0 <= i < 5 && i != j :: v[i] <= 0.51 * p[i]
    ensures Sum(v) < 0.0
  {
    SumFive(v);
    SumFive(p);
  }

  lemma PoleBounds(v: real, w: real, l: real, r: real)
    requires v < 0.0 < w && w * l == -1.0 && -v * r == 1.0
    ensures w <= 0.5 ==> l <= -2.0
    ensures v >= -0.5 ==> r >= 2.0
  {
    if w <= 0.5 && l > -2.0 {
      MulLess(w, -2.0, l);
    }
    if v >= -0.5 && r < 2.0 {
      MulLess(-v, r, 2.0);
    }
  }

  /** The function is positive at the left end of the bracket. */
  lemma PositiveAtLo(a: Vec, p: Vec)
    requires Straddles(a) && Distribution(p) && Ample(p) && OneSided(a)
    ensures Lo(a) < Hi(a) && InDomain(a, Lo(a)) && F(a, p, Lo(a)) > 0.0
  {
    var v, w, l, r := PolesOf(a);
    PoleBounds(v, w, l, r);
    Inside(a, Lo(a));
    var j: nat :| j < 5 && a[j] == w;
    PoleTerm(p[j], w, l);
    forall i | 0 <= i < 5 && i != j ensures Terms(a, p, Lo(a))[i] >= -0.51 * p[i] {
      LeftOthers(a[i], l, w <= 0.5);
      TermAtLeast(p[i], a[i], Lo(a));
    }
    Outweighs(Terms(a, p, Lo(a)), p, j);
  }

  lemma NegativeAtHi(a: Vec, p: Vec)
    requires Straddles(a) && Distribution(p) && Ample(p) && OneSided(a)
    ensures InDomain(a, Hi(a)) && F(a, p, Hi(a)) < 0.0
  {
    var v, w, l, r := PolesOf(a);
    PoleBounds(v, w, l, r);
    Inside(a, Hi(a));
    var j: nat :| j < 5 && a[j] == v;
    PoleTermRight(p[j], v, r);
    forall i | 0 <= i < 5 && i != j ensures Terms(a, p, Hi(a))[i] <= 0.51 * p[i] {
      RightOthers(a[i], r, v >= -0.5);
      TermAtMost(p[i], a[i], Hi(a));
    }
    OutweighsDown(Terms(a, p, Hi(a)), p, j);
  }

  /** With no category nearly empty, the bisection converges to the root. */
  lemma RootInBracket(a: Vec, p: Vec, x: real)
    requires Straddles(a) && Distribution(p) && Ample(p) && OneSided(a) && IsLimit(a, p, x)
    ensures IsRoot(a, p, x)
  {
    PositiveAtLo(a, p);
    NegativeAtHi(a, p);
  }
}
