/** Beyond the bound on the pairs: counts a test can reach for which the first bracket of the bisection
    misses the root (common/gsprt.cpp), so that a fit throws for a hypothesis that is not too far out.
    The first two passes stop at the left end of the bracket, and the third no longer straddles zero. In
    exact reals. */
module Clamped {
  import opened Schema
  import opened Vectors
  import opened Secular
  import opened Bracket
  import opened Mle
  import opened Llr
  import opened LlrDomain

  /** As many pairs as a test may have (server/spec.cpp), all lost twice. */
  const COUNTS: Counts := [10_000_000, 0, 0, 0, 0]

  /** Half of the constant, about 174; too far out begins at two thirds. */
  const ELO: real := 0.5 * NELO_DIVIDED_BY_NT

  /** The support of the first pass. */
  const SUPPORT: Vec := [-0.875, -0.4375, -0.125, 0.0625, 0.125]

  /** Frequencies of this kind: nearly all in the first category. */
  predicate Lopsided(p: Vec) {
    0.999 <= p[0] <= 1.0 && forall i | 1 <= i < 5 :: 0.0000000000999 <= p[i] <= 0.0000000001
  }

  // ---------------------------------------------------------------------------
  // Bounds of products and quotients
  // ---------------------------------------------------------------------------

  lemma QuotientAtMost(x: real, y: real, d: real)
    requires d > 0.0 && x <= y * d
    ensures x / d <= y
  {
    var q := x / d;
    assert q * d == x;
    if q > y {
      MulLess(d, y, q);
    }
  }

  lemma QuotientWithin(x: real, d: real, lo: real, hi: real)
    requires d > 0.0 && lo * d <= x <= hi * d
    ensures lo <= x / d <= hi
  {
    QuotientAtLeast(x, lo, d);
    QuotientAtMost(x, hi, d);
  }

  lemma ProductWithin(x: real, y: real, a: real, b: real, c: real, d: real)
    requires 0.0 <= a <= x <= b && 0.0 <= c <= y <= d
    ensures a * c <= x * y <= b * d
  {
    MulOrder(x, y, d);
    MulOrder(d, x, b);
    MulOrder(x, c, y);
    MulOrder(c, a, x);
  }

  /** The square of a difference of one or the other sign. */
  lemma SquareWithin(d: real, lo: real, hi: real)
    requires 0.0 <= lo && (lo <= d <= hi || lo <= -d <= hi)
    ensures lo * lo <= d * d <= hi * hi
  {
    var e := if d >= 0.0 then d else -d;
    ProductWithin(e, e, lo, hi, lo, hi);
    assert e * e == d * d;
  }

  lemma SpreadWithin(q: real, v: real, m: real, a: real, b: real, lo: real, hi: real)
    requires 0.0 <= a <= q <= b && 0.0 <= lo && (lo <= v - m <= hi || lo <= m - v <= hi)
    ensures a * (lo * lo) <= SpreadOf(q, v, m) <= b * (hi * hi)
  {
    var d := v - m;
    SquareWithin(d, lo, hi);
    ProductWithin(q, d * d, a, b, lo * lo, hi * hi);
    assert SpreadOf(q, v, m) == q * (d * d);
  }

  lemma SqrtWithin(x: real, square: real, lo: real, hi: real)
    requires x > 0.0 && lo > 0.0 && x * x == square && lo * lo <= square <= hi * hi && hi > 0.0
    ensures lo <= x <= hi
  {
    if x < lo {
      MulLess(x, x, lo);
      MulLess(lo, x, lo);
    }
    if x > hi {
      MulLess(x, hi, x);
      MulLess(hi, hi, x);
    }
  }

  // ---------------------------------------------------------------------------
  // The first pass stops at the end of the bracket
  // ---------------------------------------------------------------------------

  lemma CountsAreLopsided()
    ensures Distribution(ToPdf(COUNTS)) && Lopsided(ToPdf(COUNTS))
  {
    PdfIsDistribution(COUNTS);
    var m, w, p := Mass(COUNTS), Weights(COUNTS), ToPdf(COUNTS);
    SumFive(w);
    assert m == 10_000_000.004;
    QuotientWithin(w[0], m, 0.999, 1.0);
    forall i | 1 <= i < 5 ensures 0.0000000000999 <= p[i] <= 0.0000000001 {
      QuotientWithin(w[i], m, 0.0000000000999, 0.0000000001);
    }
  }

  lemma FirstSupport(r: real, mean: real, sigma: real, s: real, a: Vec)
    requires r > 0.0 && sigma > 0.0 && r * r == 2.0 && sigma * sigma == 0.125
    requires mean == 0.5 && s == 0.5 * r && a == Constraint(mean, sigma, s)
    ensures a == SUPPORT
  {
    FirstBend(0.0, r, sigma, 0.5, 0.5);
    FirstBend(0.25, r, sigma, 0.5, 0.25);
    FirstBend(0.5, r, sigma, 0.5, 0.0);
    FirstBend(0.75, r, sigma, 0.5, -0.25);
    FirstBend(1.0, r, sigma, 0.5, -0.5);
  }

  lemma SupportIs(t: Tools)
    requires IsSqrt(t.sqrt)
    ensures TValue(t, ELO) == 0.5 * t.sqrt(2.0)
    ensures Distribution(UNIFORM) && Linearised(t, TValue(t, ELO), UNIFORM) == SUPPORT
  {
    UniformIsDistribution();
    UniformMoments();
    assert (ELO / NELO_DIVIDED_BY_NT) * NELO_DIVIDED_BY_NT == ELO;
    SameQuotient(ELO / NELO_DIVIDED_BY_NT, 0.5, NELO_DIVIDED_BY_NT);
    VariancePositive(UNIFORM);
    FirstSupport(t.sqrt(2.0), Mean(UNIFORM), t.sqrt(Variance(UNIFORM)), TValue(t, ELO), Linearised(t, TValue(t, ELO), UNIFORM));
  }

  lemma SupportBracket()
    ensures Straddles(SUPPORT) && Lo(SUPPORT) == -8.0 + EPSILON && Lo(SUPPORT) < Hi(SUPPORT)
    ensures InDomain(SUPPORT, Lo(SUPPORT))
  {
    assert SUPPORT[0] < 0.0 && SUPPORT[4] > 0.0;
    assert Least(SUPPORT) == -0.875 && Greatest(SUPPORT) == 0.125;
    var v, w, l, r := PolesOf(SUPPORT);
    Inside(SUPPORT, Lo(SUPPORT));
  }

  lemma FirstDens(x: real)
    requires x == -8.0 + EPSILON
    ensures Den(SUPPORT[0], x) == 8.0 - 0.875 * EPSILON && Den(SUPPORT[1], x) == 4.5 - 0.4375 * EPSILON
    ensures Den(SUPPORT[2], x) == 2.0 - 0.125 * EPSILON && Den(SUPPORT[3], x) == 0.5 + 0.0625 * EPSILON
    ensures Den(SUPPORT[4], x) == 0.125 * EPSILON
  {
  }

  lemma NegativeAtFirstEnd(p: Vec, x: real)
    requires Lopsided(p) && x == -8.0 + EPSILON && InDomain(SUPPORT, x)
    ensures F(SUPPORT, p, x) < 0.0
  {
    FirstDens(x);
    QuotientAtMost(p[0] * SUPPORT[0], -0.109, Den(SUPPORT[0], x));
    QuotientAtMost(p[1] * SUPPORT[1], 0.0, Den(SUPPORT[1], x));
    QuotientAtMost(p[2] * SUPPORT[2], 0.0, Den(SUPPORT[2], x));
    QuotientAtMost(p[3] * SUPPORT[3], 0.001, Den(SUPPORT[3], x));
    QuotientAtMost(p[4] * SUPPORT[4], 0.1, Den(SUPPORT[4], x));
    SumFive(Terms(SUPPORT, p, x));
  }

  /** Where the function is negative at the left end already, that end is what the bisection converges to. */
  lemma LeftEndIsLimit(a: Vec, p: Vec, x: real)
    requires Straddles(a) && Positive(p) && Lo(a) < Hi(a) && InDomain(a, Lo(a)) && F(a, p, Lo(a)) < 0.0 && IsLimit(a, p, x)
    ensures x == Lo(a)
  {
    StraddlesNonzero(a);
    if x != Lo(a) {
      Decreasing(a, p, Lo(a), x);
    }
  }

  lemma SolvesAtEnd(t: Tools, a: Vec, p: Vec)
    requires IsSolver(t.solve) && Straddles(a) && Positive(p) && Lo(a) < Hi(a) && InDomain(a, Lo(a)) && F(a, p, Lo(a)) < 0.0
    ensures t.solve(a, p) == Lo(a)
  {
    LeftEndIsLimit(a, p, t.solve(a, p));
  }

  /** What the first pass leaves: a mass of about 0.925. */
  predicate AfterFirst(q: Vec) {
    && 0.1248 <= q[0] <= 0.1251 && 0.7992 <= q[4] <= 0.8
    && forall i | 1 <= i < 4 :: 0.0 < q[i] <= 0.000000001
  }

  lemma FirstTilt(p: Vec, x: real)
    requires Lopsided(p) && x == -8.0 + EPSILON && InDomain(SUPPORT, x)
    ensures AfterFirst(Tilt(SUPPORT, p, x))
  {
    FirstDens(x);
    QuotientWithin(p[0], Den(SUPPORT[0], x), 0.1248, 0.1251);
    QuotientAtMost(p[1], 0.000000001, Den(SUPPORT[1], x));
    QuotientAtMost(p[2], 0.000000001, Den(SUPPORT[2], x));
    QuotientAtMost(p[3], 0.000000001, Den(SUPPORT[3], x));
    QuotientWithin(p[4], Den(SUPPORT[4], x), 0.7992, 0.8);
    TiltPositive(SUPPORT, p, x);
    assert Positive(Tilt(SUPPORT, p, x));
  }

  lemma FirstPassIs(t: Tools, hat: Vec) returns (q: Vec)
    requires Sound(t) && IsSolver(t.solve) && Distribution(hat) && Lopsided(hat)
    ensures Positive(UNIFORM) && Step(t, hat, TValue(t, ELO), UNIFORM) == Some(q) && AfterFirst(q) && !Close(UNIFORM, q)
  {
    SupportIs(t);
    SupportBracket();
    NegativeAtFirstEnd(hat, -8.0 + EPSILON);
    SolvesAtEnd(t, SUPPORT, hat);
    q := Tilt(SUPPORT, hat, -8.0 + EPSILON);
    FirstTilt(hat, -8.0 + EPSILON);
    assert Abs(UNIFORM[2] - q[2]) >= TOLERANCE;
  }

  // ---------------------------------------------------------------------------
  // So does the second
  // ---------------------------------------------------------------------------

  lemma AfterFirstMoments(q: Vec)
    requires AfterFirst(q)
    ensures Positive(q) && 0.7992 <= Mean(q) <= 0.8001 && 0.1116 <= Variance(q) <= 0.1124
  {
    SumFive(Times(q, VALUES));
    var m := Mean(q);
    SpreadWithin(q[0], 0.0, m, 0.1248, 0.1251, 0.7992, 0.8001);
    SpreadWithin(q[1], 0.25, m, 0.0, 0.000000001, 0.0, 1.0);
    SpreadWithin(q[2], 0.5, m, 0.0, 0.000000001, 0.0, 1.0);
    SpreadWithin(q[3], 0.75, m, 0.0, 0.000000001, 0.0, 1.0);
    SpreadWithin(q[4], 1.0, m, 0.7992, 0.8, 0.1999, 0.2008);
    SumFive(Spread(q, m));
  }

  /** How far a score is bent. */
  lemma GapWithin(sigma: real, s: real, k: real, gap: real, a: real, b: real, lo: real, hi: real)
    requires sigma * gap == s * k / 2.0 && 0.334 <= sigma <= 0.3353 && 0.707 <= s <= 0.7075
    requires 0.0 <= a <= k <= b && 0.0 <= lo && lo * 0.3353 <= 0.707 * a / 2.0 && hi * 0.334 >= 0.7075 * b / 2.0
    ensures lo <= gap <= hi
  {
    ProductWithin(s, k, 0.707, 0.7075, a, b);
    if gap < lo {
      MulLess(sigma, gap, lo);
      MulOrder(lo, sigma, 0.3353);
    }
    if gap > hi {
      MulLess(sigma, hi, gap);
      MulOrder(hi, 0.334, sigma);
    }
  }

  lemma BendWithin(v: real, m: real, sigma: real, s: real, dlo: real, dhi: real, lo: real, hi: real)
    requires 0.334 <= sigma <= 0.3353 && 0.1116 <= sigma * sigma <= 0.1124 && 0.707 <= s <= 0.7075
    requires 0.0 <= dlo && (dlo <= m - v <= dhi || dlo <= v - m <= dhi) && 0.0 <= lo
    requires lo * 0.3353 <= 0.707 * (0.1116 + dlo * dlo) / 2.0 && hi * 0.334 >= 0.7075 * (0.1124 + dhi * dhi) / 2.0
    ensures v - REF - hi <= Bend(v, m, sigma, s) <= v - REF - lo
  {
    var d, b := m - v, Bend(v, m, sigma, s);
    BendTimes(v, m, sigma, s, d);
    SquareWithin(d, dlo, dhi);
    SquareWithin(dlo, 0.0, dlo);
    MulMinus(sigma, v - REF, b);
    GapWithin(sigma, s, sigma * sigma + d * d, v - REF - b, 0.1116 + dlo * dlo, 0.1124 + dhi * dhi, lo, hi);
  }

  /** The support of the second pass. */
  predicate Second(a: Vec) {
    && -1.3 <= a[0] <= -1.288 && -0.7 <= a[1] <= -0.68 && -0.22 <= a[2] <= -0.21
    && 0.12 <= a[3] <= 0.131 && 0.338 <= a[4] <= 0.3405
  }

  lemma SecondSupport(m: real, sigma: real, s: real)
    requires 0.7992 <= m <= 0.8001 && 0.707 <= s <= 0.7075
    requires 0.334 <= sigma <= 0.3353 && 0.1116 <= sigma * sigma <= 0.1124
    ensures Second(Constraint(m, sigma, s))
  {
    BendWithin(0.0, m, sigma, s, 0.7992, 0.8001, 0.788, 0.8);
    BendWithin(0.25, m, sigma, s, 0.5492, 0.5501, 0.43, 0.45);
    BendWithin(0.5, m, sigma, s, 0.2992, 0.3001, 0.21, 0.22);
    BendWithin(0.75, m, sigma, s, 0.0492, 0.0501, 0.119, 0.13);
    BendWithin(1.0, m, sigma, s, 0.1999, 0.2008, 0.1595, 0.162);
  }

  lemma HalfRootBounds(r: real)
    requires r > 0.0 && r * r == 2.0
    ensures 0.707 <= 0.5 * r <= 0.7075
  {
    SqrtWithin(r, 2.0, 1.414, 1.415);
  }

  lemma SecondIs(t: Tools, s: real, q: Vec)
    requires IsSqrt(t.sqrt) && AfterFirst(q) && 0.707 <= s <= 0.7075
    ensures Positive(q) && Second(Linearised(t, s, q))
  {
    AfterFirstMoments(q);
    var sigma := t.sqrt(Variance(q));
    SqrtWithin(sigma, Variance(q), 0.334, 0.3353);
    SecondSupport(Mean(q), sigma, s);
  }

  predicate NearPole(w: real, l: real, x: real) { w * l == -1.0 && x == l + EPSILON }

  lemma PoleRange(w: real, l: real)
    requires 0.338 <= w <= 0.3405 && w * l == -1.0
    ensures -2.959 <= l <= -2.936
  {
    if l > -2.936 {
      MulLess(w, -2.936, l);
    }
    if l < -2.959 {
      MulLess(w, l, -2.959);
    }
  }

  /** One denominator at the left end; l is the left pole. */
  lemma DenWithin(e: real, l: real, x: real, a: real, b: real)
    requires -2.959 <= l <= -2.936 && x == l + EPSILON && 0.0 <= a && (a <= e <= b || a <= -e <= b) && b <= 2.0
    ensures e <= 0.0 ==> 0.999999 + 2.936 * a <= Den(e, x) <= 1.000001 + 2.959 * b
    ensures e >= 0.0 ==> 0.999999 - 2.959 * b <= Den(e, x) <= 1.000001 - 2.936 * a
  {
    var f := if e < 0.0 then -e else e;
    ProductWithin(-l, f, 2.936, 2.959, a, b);
    assert x * e == l * e + EPSILON * e;
    assert e < 0.0 ==> -l * f == l * e;
    assert e >= 0.0 ==> -l * f == -(l * e);
  }

  lemma SecondDens(a: Vec, l: real, x: real)
    requires Second(a) && NearPole(a[4], l, x)
    ensures 4.78 <= Den(a[0], x) <= 4.848 && Den(a[1], x) >= 1.0 && Den(a[2], x) >= 1.0
    ensures Den(a[3], x) >= 0.6 && Den(a[4], x) == EPSILON * a[4]
  {
    PoleRange(a[4], l);
    DenWithin(a[0], l, x, 1.288, 1.3);
    DenWithin(a[1], l, x, 0.68, 0.7);
    DenWithin(a[2], l, x, 0.21, 0.22);
    DenWithin(a[3], l, x, 0.12, 0.131);
    assert x * a[4] == a[4] * l + EPSILON * a[4];
  }

  lemma TermBelow(p: real, a: real, x: real, y: real)
    requires Den(a, x) > 0.0 && p >= 0.0 && a <= y * Den(a, x)
    ensures Term(p, a, x) <= p * y
  {
    var d := Den(a, x);
    MulOrder(p, a, y * d);
    assert p * (y * d) == (p * y) * d;
    QuotientAtMost(p * a, p * y, d);
  }

  lemma NegativeAtSecondEnd(a: Vec, p: Vec, l: real, x: real)
    requires Second(a) && Lopsided(p) && NearPole(a[4], l, x) && InDomain(a, x)
    ensures F(a, p, x) < 0.0
  {
    SecondDens(a, l, x);
    TermBelow(p[0], a[0], x, -0.26);
    TermBelow(p[1], a[1], x, 0.0);
    TermBelow(p[2], a[2], x, 0.0);
    TermBelow(p[3], a[3], x, 1.0);
    TermBelow(p[4], a[4], x, 1_000_000_000.0);
    SumFive(Terms(a, p, x));
  }

  /** What the second pass leaves: a mass of about a half. */
  predicate AfterSecond(q: Vec) {
    && 0.206 <= q[0] <= 0.2095 && 0.2933 <= q[4] <= 0.2959
    && forall i | 1 <= i < 4 :: 0.0 < q[i] <= 0.000000001
  }

  lemma SecondTilt(a: Vec, p: Vec, l: real, x: real)
    requires Second(a) && Lopsided(p) && NearPole(a[4], l, x) && InDomain(a, x)
    ensures AfterSecond(Tilt(a, p, x))
  {
    SecondDens(a, l, x);
    QuotientWithin(p[0], Den(a[0], x), 0.206, 0.2095);
    QuotientAtMost(p[1], 0.000000001, Den(a[1], x));
    QuotientAtMost(p[2], 0.000000001, Den(a[2], x));
    QuotientAtMost(p[3], 0.000000001, Den(a[3], x));
    QuotientWithin(p[4], Den(a[4], x), 0.2933, 0.2959);
    TiltPositive(a, p, x);
    assert Positive(Tilt(a, p, x));
  }

  lemma SecondEnd(a: Vec)
    requires Second(a)
    ensures Straddles(a) && Lo(a) < Hi(a) && InDomain(a, Lo(a)) && NearPole(a[4], LeftPole(a), Lo(a))
  {
    assert a[0] < 0.0 && a[4] > 0.0;
    var v, w, l, r := PolesOf(a);
    assert w == a[4] && v == a[0];
    PoleRange(w, l);
    Inside(a, Lo(a));
  }

  lemma SecondAtEnd(a: Vec, p: Vec)
    requires Second(a) && Lopsided(p)
    ensures Straddles(a) && Lo(a) < Hi(a) && InDomain(a, Lo(a)) && F(a, p, Lo(a)) < 0.0
  {
    SecondEnd(a);
    var l, x := LeftPole(a), Lo(a);
    NegativeAtSecondEnd(a, p, l, x);
  }

  lemma SecondTiltAtEnd(a: Vec, p: Vec)
    requires Second(a) && Lopsided(p)
    ensures Straddles(a) && InDomain(a, Lo(a)) && AfterSecond(Tilt(a, p, Lo(a)))
  {
    SecondEnd(a);
    var l, x := LeftPole(a), Lo(a);
    SecondTilt(a, p, l, x);
  }

  lemma SecondPassIs(t: Tools, hat: Vec, s: real, q: Vec) returns (next: Vec)
    requires Sound(t) && IsSolver(t.solve) && Distribution(hat) && Lopsided(hat) && AfterFirst(q) && 0.707 <= s <= 0.7075
    ensures Positive(q) && Step(t, hat, s, q) == Some(next) && AfterSecond(next) && !Close(q, next)
  {
    SecondIs(t, s, q);
    var a := Linearised(t, s, q);
    SecondAtEnd(a, hat);
    SolvesAtEnd(t, a, hat);
    SecondTiltAtEnd(a, hat);
    next := Tilt(a, hat, Lo(a));
    assert Abs(q[4] - next[4]) >= TOLERANCE;
  }

  // ---------------------------------------------------------------------------
  // The third throws
  // ---------------------------------------------------------------------------

  lemma AfterSecondMoments(q: Vec)
    requires AfterSecond(q)
    ensures Positive(q) && 0.2933 <= Mean(q) <= 0.296 && 0.163 <= Variance(q) <= 0.1663
  {
    SumFive(Times(q, VALUES));
    var m := Mean(q);
    SpreadWithin(q[0], 0.0, m, 0.206, 0.2095, 0.2933, 0.296);
    SpreadWithin(q[1], 0.25, m, 0.0, 0.000000001, 0.0, 1.0);
    SpreadWithin(q[2], 0.5, m, 0.0, 0.000000001, 0.0, 1.0);
    SpreadWithin(q[3], 0.75, m, 0.0, 0.000000001, 0.0, 1.0);
    SpreadWithin(q[4], 1.0, m, 0.2933, 0.2959, 0.704, 0.7067);
    SumFive(Spread(q, m));
  }

  lemma BentBelow(v: real, m: real, sigma: real, s: real, d: real, k: real, b: real)
    requires sigma > 0.0 && s >= 0.707 && d == m - v && k == sigma * sigma + d * d && b == Bend(v, m, sigma, s)
    requires 0.0 <= k && 0.707 * k >= 2.0 * (sigma * (v - REF))
    ensures b <= 0.0
  {
    BendTimes(v, m, sigma, s, d);
    MulOrder(k, 0.707, s);
    if b > 0.0 {
      MulPositive(sigma, b);
    }
  }

  /** By now every score is bent below zero. */
  lemma AllBelow(m: real, sigma: real, s: real, v: real)
    requires 0.2933 <= m <= 0.296 && 0.0 < sigma <= 0.408 && 0.163 <= sigma * sigma && s >= 0.707
    requires v <= 0.5 || v == 0.75 || v == 1.0
    ensures Bend(v, m, sigma, s) <= 0.0
  {
    var d := m - v;
    SquareWithin(d, 0.0, if d < 0.0 then -d else d);
    if v <= 0.5 {
      NonnegativeProduct(sigma, 0.5 - v);
    } else if v == 0.75 {
      SquareWithin(d, 0.454, 0.46);
    } else {
      SquareWithin(d, 0.704, 0.71);
    }
    BentBelow(v, m, sigma, s, d, sigma * sigma + d * d, Bend(v, m, sigma, s));
  }

  lemma ThirdThrows(t: Tools, s: real, q: Vec)
    requires IsSqrt(t.sqrt) && AfterSecond(q) && s >= 0.707
    ensures Positive(q) && !Straddles(Linearised(t, s, q))
  {
    AfterSecondMoments(q);
    var m, sigma := Mean(q), t.sqrt(Variance(q));
    SqrtWithin(sigma, Variance(q), 0.4, 0.408);
    forall i | 0 <= i < 5 ensures Linearised(t, s, q)[i] <= 0.0 {
      AllBelow(m, sigma, s, VALUES[i]);
    }
  }

  // ---------------------------------------------------------------------------
  // The fit
  // ---------------------------------------------------------------------------

  lemma FitThrowsInThirdPass(t: Tools, hat: Vec, n: nat)
    requires Sound(t) && IsSolver(t.solve) && Distribution(hat) && Lopsided(hat)
    ensures Positive(UNIFORM) && Iterate(t, hat, TValue(t, ELO), UNIFORM, n + 3).None?
  {
    var s := TValue(t, ELO);
    SupportIs(t);
    HalfRootBounds(t.sqrt(2.0));
    var q := FirstPassIs(t, hat);
    var next := SecondPassIs(t, hat, s, q);
    ThirdThrows(t, s, next);
    IterateOnce(t, hat, s, UNIFORM, n + 3, Some(q));
    IterateOnce(t, hat, s, q, n + 2, Some(next));
    IterateOnce(t, hat, s, next, n + 1, None);
  }

  /** The first two passes leave no distribution: of the mass one, less than 0.51 is left after them. */
  lemma MassIsLost(t: Tools) returns (q: Vec, next: Vec)
    requires Sound(t) && IsSolver(t.solve)
    ensures Distribution(ToPdf(COUNTS)) && Positive(UNIFORM) && Positive(q)
    ensures Step(t, ToPdf(COUNTS), TValue(t, ELO), UNIFORM) == Some(q) && Sum(q) < 0.93
    ensures Step(t, ToPdf(COUNTS), TValue(t, ELO), q) == Some(next) && Sum(next) < 0.51
  {
    CountsAreLopsided();
    SupportIs(t);
    HalfRootBounds(t.sqrt(2.0));
    q := FirstPassIs(t, ToPdf(COUNTS));
    next := SecondPassIs(t, ToPdf(COUNTS), TValue(t, ELO), q);
    SumFive(q);
    SumFive(next);
  }

  /** So the LLR throws although neither hypothesis is too far out. */
  lemma ThrowsBeyond(t: Tools)
    requires Sound(t) && IsSolver(t.solve)
    ensures !TooFar(0.0) && !TooFar(ELO) && !Modest(COUNTS) && Pairs(COUNTS) == 10_000_000
    ensures LlrNormalized(t, 0.0, ELO, COUNTS).None?
  {
    CountsAreLopsided();
    FitThrowsInThirdPass(t, ToPdf(COUNTS), Passes() - 3);
  }
}
