/** The other side of the counts of Clamped: seen by the baseline the same games and hypotheses have an LLR.
    Every pass of its fit stops at the right end of the bracket, and every support straddles zero. In exact
    reals. */
module OneSideThrows {
  import opened Schema
  import opened Vectors
  import opened Secular
  import opened Bracket
  import opened Mle
  import opened Llr
  import opened LlrDomain
  import opened Clamped
  import Mirror

  /** The support of the first pass. */
  const MIRRORED: Vec := [-0.125, -0.0625, 0.125, 0.4375, 0.875]

  /** Frequencies of this kind: nearly all in the last category. */
  predicate Topped(p: Vec) {
    0.999 <= p[4] <= 1.0 && forall i | 0 <= i < 4 :: 0.0000000000999 <= p[i] <= 0.0000000001
  }

  lemma CountsAreTopped()
    ensures Distribution(ToPdf(Mirror.Flipped(COUNTS))) && Topped(ToPdf(Mirror.Flipped(COUNTS)))
  {
    CountsAreLopsided();
    Mirror.PdfMirror(COUNTS);
    PdfIsDistribution(Mirror.Flipped(COUNTS));
  }

  lemma TermAbove(p: real, a: real, x: real, y: real)
    requires Den(a, x) > 0.0 && p >= 0.0 && a >= y * Den(a, x)
    ensures Term(p, a, x) >= p * y
  {
    var d := Den(a, x);
    MulOrder(p, y * d, a);
    assert p * (y * d) == (p * y) * d;
    QuotientAtLeast(p * a, p * y, d);
  }

  /** Where the function is positive at the right end already, that end is what the bisection converges to. */
  lemma SolvesAtRightEnd(t: Tools, a: Vec, p: Vec)
    requires IsSolver(t.solve) && Straddles(a) && Positive(p) && Lo(a) < Hi(a) && InDomain(a, Hi(a)) && F(a, p, Hi(a)) > 0.0
    ensures t.solve(a, p) == Hi(a)
  {
    StraddlesNonzero(a);
    var x := t.solve(a, p);
    assert IsLimit(a, p, x);
    if x != Hi(a) {
      Decreasing(a, p, x, Hi(a));
    }
  }

  // ---------------------------------------------------------------------------
  // The first pass
  // ---------------------------------------------------------------------------

  lemma FirstMirrored(r: real, mean: real, sigma: real, s: real, a: Vec)
    requires r > 0.0 && sigma > 0.0 && r * r == 2.0 && sigma * sigma == 0.125
    requires mean == 0.5 && s == -0.5 * r && a == Constraint(mean, sigma, s)
    ensures a == MIRRORED
  {
    FirstBend(0.0, r, sigma, -0.5, 0.5);
    FirstBend(0.25, r, sigma, -0.5, 0.25);
    FirstBend(0.5, r, sigma, -0.5, 0.0);
    FirstBend(0.75, r, sigma, -0.5, -0.25);
    FirstBend(1.0, r, sigma, -0.5, -0.5);
  }

  lemma MirroredIs(t: Tools)
    requires IsSqrt(t.sqrt)
    ensures TValue(t, -ELO) == -0.5 * t.sqrt(2.0)
    ensures Distribution(UNIFORM) && Linearised(t, TValue(t, -ELO), UNIFORM) == MIRRORED
  {
    UniformIsDistribution();
    UniformMoments();
    assert (-ELO / NELO_DIVIDED_BY_NT) * NELO_DIVIDED_BY_NT == -ELO;
    SameQuotient(-ELO / NELO_DIVIDED_BY_NT, -0.5, NELO_DIVIDED_BY_NT);
    VariancePositive(UNIFORM);
    FirstMirrored(t.sqrt(2.0), Mean(UNIFORM), t.sqrt(Variance(UNIFORM)), TValue(t, -ELO), Linearised(t, TValue(t, -ELO), UNIFORM));
  }

  lemma MirroredBracket()
    ensures Straddles(MIRRORED) && Hi(MIRRORED) == 8.0 - EPSILON && Lo(MIRRORED) < Hi(MIRRORED)
    ensures InDomain(MIRRORED, Hi(MIRRORED))
  {
    assert MIRRORED[0] < 0.0 && MIRRORED[4] > 0.0;
    assert Least(MIRRORED) == -0.125 && Greatest(MIRRORED) == 0.875;
    var v, w, l, r := PolesOf(MIRRORED);
    Inside(MIRRORED, Hi(MIRRORED));
  }

  lemma MirroredDens(x: real)
    requires x == 8.0 - EPSILON
    ensures Den(MIRRORED[0], x) == 0.125 * EPSILON && Den(MIRRORED[1], x) == 0.5 + 0.0625 * EPSILON
    ensures Den(MIRRORED[2], x) == 2.0 - 0.125 * EPSILON && Den(MIRRORED[3], x) == 4.5 - 0.4375 * EPSILON
    ensures Den(MIRRORED[4], x) == 8.0 - 0.875 * EPSILON
  {
  }

  lemma PositiveAtFirstEnd(p: Vec, x: real)
    requires Topped(p) && x == 8.0 - EPSILON && InDomain(MIRRORED, x)
    ensures F(MIRRORED, p, x) > 0.0
  {
    MirroredDens(x);
    TermAbove(p[0], MIRRORED[0], x, -1_000_000_000.0);
    TermAbove(p[1], MIRRORED[1], x, -1.0);
    TermAbove(p[2], MIRRORED[2], x, 0.0);
    TermAbove(p[3], MIRRORED[3], x, 0.0);
    TermAbove(p[4], MIRRORED[4], x, 0.109375);
    SumFive(Terms(MIRRORED, p, x));
  }

  /** What the first pass leaves. */
  predicate AfterOne(q: Vec) {
    && 0.7992 <= q[0] <= 0.8 && 0.1248 <= q[4] <= 0.1251
    && forall i | 1 <= i < 4 :: 0.0 < q[i] <= 0.000000001
  }

  lemma FirstMirroredTilt(p: Vec, x: real)
    requires Topped(p) && x == 8.0 - EPSILON && InDomain(MIRRORED, x)
    ensures AfterOne(Tilt(MIRRORED, p, x))
  {
    MirroredDens(x);
    QuotientWithin(p[0], Den(MIRRORED[0], x), 0.7992, 0.8);
    QuotientAtMost(p[1], 0.000000001, Den(MIRRORED[1], x));
    QuotientAtMost(p[2], 0.000000001, Den(MIRRORED[2], x));
    QuotientAtMost(p[3], 0.000000001, Den(MIRRORED[3], x));
    QuotientWithin(p[4], Den(MIRRORED[4], x), 0.1248, 0.1251);
    TiltPositive(MIRRORED, p, x);
    assert Positive(Tilt(MIRRORED, p, x));
  }

  lemma FirstMirroredPass(t: Tools, hat: Vec) returns (q: Vec)
    requires Sound(t) && IsSolver(t.solve) && Distribution(hat) && Topped(hat)
    ensures Positive(UNIFORM) && Step(t, hat, TValue(t, -ELO), UNIFORM) == Some(q) && AfterOne(q)
  {
    MirroredIs(t);
    MirroredBracket();
    PositiveAtFirstEnd(hat, 8.0 - EPSILON);
    SolvesAtRightEnd(t, MIRRORED, hat);
    q := Tilt(MIRRORED, hat, 8.0 - EPSILON);
    FirstMirroredTilt(hat, 8.0 - EPSILON);
  }

  // ---------------------------------------------------------------------------
  // Every later pass
  // ---------------------------------------------------------------------------

  /** What every later pass leaves. */
  predicate Settled(q: Vec) {
    && 0.27 <= q[0] <= 0.334 && 0.18 <= q[4] <= 0.24
    && forall i | 1 <= i < 4 :: 0.0 < q[i] <= 0.000000001
  }

  /** m (1 - m)^2 grows with m up to a quarter. */
  function Psi(m: real): real { m * ((1.0 - m) * (1.0 - m)) }

  lemma PsiOrder(m: real, c: real)
    requires 0.0 <= m <= c <= 0.25
    ensures Psi(m) <= Psi(c)
  {
    var mm, mc, cc := m * m, m * c, c * c;
    NonnegativeProduct(m, m);
    NonnegativeProduct(m, c);
    NonnegativeProduct(c, c);
    var rest := mm + mc + cc - 2.0 * (m + c) + 1.0;
    NonnegativeProduct(c - m, rest);
    assert (c - m) * rest == Psi(c) - Psi(m) by {
      assert Psi(m) == m - 2.0 * mm + m * mm;
      assert Psi(c) == c - 2.0 * cc + c * cc;
      assert m * mc == c * mm && c * mc == m * cc;
    }
  }

  lemma SettledMoments(q: Vec)
    requires Settled(q)
    ensures Positive(q) && 0.18 <= Mean(q) <= 0.2401 && 0.1297 <= Variance(q) <= 0.1582
  {
    SumFive(Times(q, VALUES));
    var m := Mean(q);
    SpreadWithin(q[0], 0.0, m, 0.27, 0.334, 0.18, 0.2401);
    SpreadWithin(q[1], 0.25, m, 0.0, 0.000000001, 0.0, 1.0);
    SpreadWithin(q[2], 0.5, m, 0.0, 0.000000001, 0.0, 1.0);
    SpreadWithin(q[3], 0.75, m, 0.0, 0.000000001, 0.0, 1.0);
    LastSpread(q[4], m);
    SumFive(Spread(q, m));
  }

  /** The spread of the last category, whose weight is nearly the mean. */
  lemma LastSpread(q: real, m: real)
    requires 0.18 <= m <= 0.2401 && m - 0.00000001 <= q <= m
    ensures 0.121031 <= SpreadOf(q, 1.0, m) <= 0.138646
  {
    PsiOrder(0.18, m);
    PsiOrder(m, 0.2401);
    var d := 1.0 - m;
    SquareWithin(d, 0.0, 1.0);
    ProductWithin(m - q, d * d, 0.0, 0.00000001, 0.0, 1.0);
    assert SpreadOf(q, 1.0, m) == q * (d * d);
    assert m * (d * d) - q * (d * d) == (m - q) * (d * d);
    assert Psi(m) == m * (d * d);
    assert Psi(0.18) == 0.121032 && Psi(0.2401) <= 0.138646;
  }

  lemma AfterOneMoments(q: Vec)
    requires AfterOne(q)
    ensures Positive(q) && 0.1248 <= Mean(q) <= 0.1252 && 0.1079 <= Variance(q) <= 0.1084
  {
    SumFive(Times(q, VALUES));
    var m := Mean(q);
    SpreadWithin(q[0], 0.0, m, 0.7992, 0.8, 0.1248, 0.1252);
    SpreadWithin(q[1], 0.25, m, 0.0, 0.000000001, 0.0, 1.0);
    SpreadWithin(q[2], 0.5, m, 0.0, 0.000000001, 0.0, 1.0);
    SpreadWithin(q[3], 0.75, m, 0.0, 0.000000001, 0.0, 1.0);
    SpreadWithin(q[4], 1.0, m, 0.1248, 0.1251, 0.8748, 0.8752);
    SumFive(Spread(q, m));
  }

  /** Between its ends a parabola lies below its chord and above its tangent. */
  lemma Chord(x: real, a: real, b: real)
    requires a <= x <= b
    ensures x * x <= (a + b) * x - a * b
    ensures x * x >= 2.0 * a * x - a * a
  {
    NonnegativeProduct(x - a, b - x);
    NonnegativeProduct(x - a, x - a);
    assert (x - a) * (b - x) == (a + b) * x - a * b - x * x;
    assert (x - a) * (x - a) == x * x - 2.0 * a * x + a * a;
  }

  /** A line below a bound at both ends is below it between them. */
  lemma Between(x: real, a: real, b: real, slope: real, bound: real)
    requires a <= x <= b && slope * a <= bound && slope * b <= bound
    ensures slope * x <= bound
  {
    if slope >= 0.0 {
      MulOrder(slope, x, b);
    } else {
      MulOrder(-slope, a, x);
    }
  }

  lemma LineAt(lo: real, a: real, y: real)
    ensures (2.0 * lo - 1.414 * a) * y == 2.0 * (lo * y) - 1.414 * (a * y)
  {
  }

  lemma LineUp(hi: real, a: real, b: real, y: real)
    ensures (0.7075 * (a + b) - 2.0 * hi) * y == 0.7075 * (a * y) + 0.7075 * (b * y) - 2.0 * (hi * y)
  {
  }

  lemma LowerLine(x: real, a: real, b: real, lo: real, dd: real)
    requires 0.0 < a <= x <= b
    requires 2.0 * (lo * a) <= 0.707 * (a * a + dd) && 2.0 * (lo * b) <= 0.707 * (2.0 * (a * b) - a * a + dd)
    ensures 2.0 * (lo * x) <= 0.707 * (x * x + dd)
  {
    Chord(x, a, b);
    var slope := 2.0 * lo - 1.414 * a;
    LineAt(lo, a, a);
    LineAt(lo, a, b);
    LineAt(lo, a, x);
    Between(x, a, b, slope, 0.707 * (dd - a * a));
  }

  lemma UpperLine(x: real, a: real, b: real, hi: real, dd: real)
    requires 0.0 < a <= x <= b
    requires 2.0 * (hi * a) >= 0.7075 * (a * a + dd) && 2.0 * (hi * b) >= 0.7075 * (b * b + dd)
    ensures 2.0 * (hi * x) >= 0.7075 * (x * x + dd)
  {
    Chord(x, a, b);
    var slope := 0.7075 * (a + b) - 2.0 * hi;
    LineUp(hi, a, b, a);
    LineUp(hi, a, b, b);
    LineUp(hi, a, b, x);
    Between(x, a, b, slope, 0.7075 * (a * b - dd));
  }

  /** How far a score is bent. */
  lemma LiftWithin(sigma: real, u: real, k: real, lift: real, lo: real, hi: real)
    requires sigma > 0.0 && sigma * lift == u * k / 2.0 && 0.707 <= u <= 0.7075 && k >= 0.0
    requires 2.0 * (lo * sigma) <= 0.707 * k && 2.0 * (hi * sigma) >= 0.7075 * k
    ensures lo <= lift <= hi
  {
    MulOrder(k, 0.707, u);
    MulOrder(k, u, 0.7075);
    if lift < lo {
      MulLess(sigma, lift, lo);
    }
    if lift > hi {
      MulLess(sigma, hi, lift);
    }
  }

  lemma LiftedWithin(v: real, m: real, sigma: real, s: real, a: real, b: real, dlo: real, dhi: real, lo: real, hi: real)
    requires 0.0 < a <= sigma <= b && 0.707 <= -s <= 0.7075
    requires 0.0 <= dlo && (dlo <= m - v <= dhi || dlo <= v - m <= dhi)
    requires 2.0 * (lo * a) <= 0.707 * (a * a + dlo * dlo) && 2.0 * (lo * b) <= 0.707 * (2.0 * (a * b) - a * a + dlo * dlo)
    requires 2.0 * (hi * a) >= 0.7075 * (a * a + dhi * dhi) && 2.0 * (hi * b) >= 0.7075 * (b * b + dhi * dhi)
    ensures v - REF + lo <= Bend(v, m, sigma, s) <= v - REF + hi
  {
    var d, y := m - v, Bend(v, m, sigma, s);
    var dd, k := d * d, sigma * sigma + d * d;
    SquareWithin(d, dlo, dhi);
    LowerLine(sigma, a, b, lo, dlo * dlo);
    UpperLine(sigma, a, b, hi, dhi * dhi);
    BendTimes(v, m, sigma, s, d);
    MulMinus(sigma, y, v - REF);
    assert -s * k == -(s * k);
    SquareWithin(sigma, 0.0, sigma);
    SquareWithin(d, 0.0, if d < 0.0 then -d else d);
    LiftWithin(sigma, -s, k, y - (v - REF), lo, hi);
  }

  /** The support of a later pass; its least score is the first. */
  predicate Later(a: Vec) {
    && -0.37 <= a[0] <= -0.3 && 0.45 * a[0] <= a[1] && 0.0 <= a[2] && 0.0 <= a[3]
    && -3.17 * a[0] <= a[4] <= -4.5 * a[0]
    && a[1] <= 2.0 && a[2] <= 2.0 && a[3] <= 2.0
  }

  lemma SettledSupport(m: real, sigma: real, s: real)
    requires 0.18 <= m <= 0.2401 && 0.36 <= sigma <= 0.398 && 0.707 <= -s <= 0.7075
    ensures Later(Constraint(m, sigma, s))
  {
    LiftedWithin(0.0, m, sigma, s, 0.36, 0.398, 0.18, 0.2401, 0.159, 0.1922);
    LiftedWithin(0.25, m, sigma, s, 0.36, 0.398, 0.0099, 0.07, 0.115, 0.3);
    LiftedWithin(0.5, m, sigma, s, 0.36, 0.398, 0.2599, 0.32, 0.0, 1.0);
    LiftedWithin(0.75, m, sigma, s, 0.36, 0.398, 0.5099, 0.57, 0.0, 1.0);
    LiftedWithin(1.0, m, sigma, s, 0.36, 0.398, 0.7599, 0.82, 0.65, 0.789);
  }

  lemma AfterOneSupport(m: real, sigma: real, s: real)
    requires 0.1248 <= m <= 0.1252 && 0.3284 <= sigma <= 0.3293 && 0.707 <= -s <= 0.7075
    ensures Later(Constraint(m, sigma, s))
  {
    LiftedWithin(0.0, m, sigma, s, 0.3284, 0.3293, 0.1248, 0.1252, 0.1315, 0.1345);
    LiftedWithin(0.25, m, sigma, s, 0.3284, 0.3293, 0.1248, 0.1252, 0.115, 0.3);
    LiftedWithin(0.5, m, sigma, s, 0.3284, 0.3293, 0.3748, 0.3752, 0.0, 1.0);
    LiftedWithin(0.75, m, sigma, s, 0.3284, 0.3293, 0.6248, 0.6252, 0.0, 1.0);
    LiftedWithin(1.0, m, sigma, s, 0.3284, 0.3293, 0.8748, 0.8752, 0.9, 1.0);
  }

  lemma LaterIs(t: Tools, s: real, q: Vec)
    requires IsSqrt(t.sqrt) && (AfterOne(q) || Settled(q)) && 0.707 <= -s <= 0.7075
    ensures Positive(q) && Later(Linearised(t, s, q))
  {
    if AfterOne(q) {
      AfterOneMoments(q);
      SqrtWithin(t.sqrt(Variance(q)), Variance(q), 0.3284, 0.3293);
      AfterOneSupport(Mean(q), t.sqrt(Variance(q)), s);
    } else {
      SettledMoments(q);
      SqrtWithin(t.sqrt(Variance(q)), Variance(q), 0.36, 0.398);
      SettledSupport(Mean(q), t.sqrt(Variance(q)), s);
    }
  }

  predicate NearRightPole(v: real, r: real, x: real) { -v * r == 1.0 && x == r - EPSILON }

  lemma RightPoleRange(u: real, r: real)
    requires 0.3 <= u <= 0.37 && u * r == 1.0
    ensures 2.7 <= r <= 3.34
  {
    if r < 2.7 {
      MulLess(u, r, 2.7);
    }
    if r > 3.34 {
      MulLess(u, 3.34, r);
    }
  }

  /** One denominator at the right end; r is the right pole. */
  lemma RightDen(e: real, u: real, r: real, x: real, lo: real, hi: real)
    requires 0.3 <= u <= 0.37 && u * r == 1.0 && x == r - EPSILON && lo * u <= e <= hi * u && -2.0 <= e <= 2.0
    ensures 1.0 + lo - 0.00000001 <= Den(e, x) <= 1.0 + hi + 0.00000001
  {
    RightPoleRange(u, r);
    MulOrder(r, lo * u, e);
    MulOrder(r, e, hi * u);
    assert r * (lo * u) == lo * (u * r) && r * (hi * u) == hi * (u * r);
    assert x * e == r * e - EPSILON * e;
  }

  lemma LaterDens(a: Vec, r: real, x: real)
    requires Later(a) && NearRightPole(a[0], r, x)
    ensures Den(a[0], x) == EPSILON * -a[0] && Den(a[1], x) >= 0.5 && Den(a[2], x) >= 0.9 && Den(a[3], x) >= 0.9
    ensures 4.169 <= Den(a[4], x) <= 5.51
  {
    var u := -a[0];
    RightDen(a[1], u, r, x, -0.45, 7.0);
    RightDen(a[2], u, r, x, 0.0, 7.0);
    RightDen(a[3], u, r, x, 0.0, 7.0);
    RightDen(a[4], u, r, x, 3.17, 4.5);
    assert x * a[0] == -(u * r) + EPSILON * u;
  }

  lemma PositiveAtLaterEnd(a: Vec, p: Vec, r: real, x: real)
    requires Later(a) && Topped(p) && NearRightPole(a[0], r, x) && InDomain(a, x)
    ensures F(a, p, x) > 0.0
  {
    LaterDens(a, r, x);
    TermAbove(p[0], a[0], x, -1_000_000_000.0);
    TermAbove(p[1], a[1], x, -1.0);
    TermAbove(p[2], a[2], x, 0.0);
    TermAbove(p[3], a[3], x, 0.0);
    TermAbove(p[4], a[4], x, 0.12);
    SumFive(Terms(a, p, x));
  }

  lemma LaterTilt(a: Vec, p: Vec, r: real, x: real)
    requires Later(a) && Topped(p) && NearRightPole(a[0], r, x) && InDomain(a, x)
    ensures Settled(Tilt(a, p, x))
  {
    LaterDens(a, r, x);
    QuotientWithin(p[0], Den(a[0], x), 0.27, 0.334);
    QuotientAtMost(p[1], 0.000000001, Den(a[1], x));
    QuotientAtMost(p[2], 0.000000001, Den(a[2], x));
    QuotientAtMost(p[3], 0.000000001, Den(a[3], x));
    QuotientWithin(p[4], Den(a[4], x), 0.18, 0.24);
    TiltPositive(a, p, x);
    assert Positive(Tilt(a, p, x));
  }

  lemma RightEndInside(a: Vec)
    requires Straddles(a) && RightPole(a) >= 1.0
    ensures Lo(a) < Hi(a) && InDomain(a, Hi(a))
  {
    var v, w, l, r := PolesOf(a);
    Inside(a, r - EPSILON);
  }

  lemma LaterLeast(a: Vec)
    requires Later(a)
    ensures Straddles(a) && Least(a) == a[0]
  {
    assert a[0] < 0.0 && a[4] > 0.0;
  }

  lemma RightPoleIs(v: real, r: real, x: real)
    requires v < 0.0 && r == -1.0 / v && x == r - EPSILON
    ensures NearRightPole(v, r, x)
  {
    Poles(v, 1.0);
  }

  lemma RightPoleOf(a: Vec)
    requires Straddles(a) && Least(a) == a[0] && a[0] < 0.0
    ensures NearRightPole(a[0], RightPole(a), Hi(a))
  {
    var r, x := RightPole(a), Hi(a);
    assert r == -1.0 / a[0];
    RightPoleIs(a[0], r, x);
  }

  lemma FarFromZero(v: real, r: real, x: real)
    requires NearRightPole(v, r, x) && -0.37 <= v <= -0.3
    ensures r >= 1.0
  {
    RightPoleRange(-v, r);
  }

  lemma LaterEnd(a: Vec)
    requires Later(a)
    ensures Straddles(a) && Lo(a) < Hi(a) && InDomain(a, Hi(a)) && NearRightPole(a[0], RightPole(a), Hi(a))
  {
    LaterLeast(a);
    RightPoleOf(a);
    var r, x := RightPole(a), Hi(a);
    FarFromZero(a[0], r, x);
    RightEndInside(a);
  }

  lemma LaterAtEnd(a: Vec, p: Vec)
    requires Later(a) && Topped(p)
    ensures Straddles(a) && Lo(a) < Hi(a) && InDomain(a, Hi(a)) && F(a, p, Hi(a)) > 0.0
  {
    LaterEnd(a);
    var r, x := RightPole(a), Hi(a);
    PositiveAtLaterEnd(a, p, r, x);
  }

  lemma LaterTiltAtEnd(a: Vec, p: Vec)
    requires Later(a) && Topped(p)
    ensures Straddles(a) && InDomain(a, Hi(a)) && Settled(Tilt(a, p, Hi(a)))
  {
    LaterEnd(a);
    var r, x := RightPole(a), Hi(a);
    LaterTilt(a, p, r, x);
  }

  lemma LaterPass(t: Tools, hat: Vec, s: real, q: Vec) returns (next: Vec)
    requires Sound(t) && IsSolver(t.solve) && Distribution(hat) && Topped(hat) && 0.707 <= -s <= 0.7075
    requires AfterOne(q) || Settled(q)
    ensures Positive(q) && Step(t, hat, s, q) == Some(next) && Settled(next)
  {
    LaterIs(t, s, q);
    var a := Linearised(t, s, q);
    LaterAtEnd(a, hat);
    SolvesAtRightEnd(t, a, hat);
    LaterTiltAtEnd(a, hat);
    next := Tilt(a, hat, Hi(a));
  }

  // ---------------------------------------------------------------------------
  // The fits
  // ---------------------------------------------------------------------------

  ghost predicate StaysSettled(t: Tools, hat: Vec, s: real)
    requires Sound(t) && Distribution(hat)
  {
    forall q: Vec {:trigger Step(t, hat, s, q)} | Settled(q) :: Positive(q) && SettlesIn(Step(t, hat, s, q))
  }

  predicate SettlesIn(next: Option<Vec>) { next.Some? && Settled(next.value) }

  lemma PassesStaySettled(t: Tools, hat: Vec, s: real)
    requires Sound(t) && IsSolver(t.solve) && Distribution(hat) && Topped(hat) && 0.707 <= -s <= 0.7075
    ensures StaysSettled(t, hat, s)
  {
    forall q: Vec | Settled(q) ensures Positive(q) && SettlesIn(Step(t, hat, s, q)) {
      var next := LaterPass(t, hat, s, q);
    }
  }

  lemma {:induction false} SettledNeverThrows(t: Tools, hat: Vec, s: real, q: Vec, n: nat)
    requires Sound(t) && Distribution(hat) && StaysSettled(t, hat, s) && Settled(q)
    ensures Positive(q) && Iterate(t, hat, s, q, n).Some?
    decreases n
  {
    if n > 0 {
      var next := Step(t, hat, s, q);
      IterateOnce(t, hat, s, q, n, next);
      SettledNeverThrows(t, hat, s, next.value, n - 1);
    }
  }

  lemma FitSucceeds(t: Tools, hat: Vec)
    requires Sound(t) && IsSolver(t.solve) && Distribution(hat) && Topped(hat)
    ensures MleTValue(t, hat, TValue(t, -ELO)).Some?
  {
    var s := TValue(t, -ELO);
    MirroredIs(t);
    HalfRootBounds(t.sqrt(2.0));
    var q := FirstMirroredPass(t, hat);
    var next := LaterPass(t, hat, s, q);
    PassesStaySettled(t, hat, s);
    SettledNeverThrows(t, hat, s, next, Passes() - 2);
    IterateOnce(t, hat, s, UNIFORM, Passes(), Some(q));
    IterateOnce(t, hat, s, q, Passes() - 1, Some(next));
  }

  /** With nothing to bend for, every support straddles zero. */
  lemma {:induction false} UnbentNeverThrows(t: Tools, hat: Vec, q: Vec, n: nat)
    requires Sound(t) && Distribution(hat) && Positive(q)
    ensures Iterate(t, hat, 0.0, q, n).Some?
    decreases n
  {
    if n > 0 {
      VariancePositive(q);
      EndsOf(Mean(q), t.sqrt(Variance(q)), 0.0);
      var a := Linearised(t, 0.0, q);
      assert a[0] < 0.0 && a[4] > 0.0;
      var next := Step(t, hat, 0.0, q);
      IterateOnce(t, hat, 0.0, q, n, next);
      UnbentNeverThrows(t, hat, next.value, n - 1);
    }
  }

  /** With so many pairs the two sides of the same games are not treated alike: the LLR throws from the
      candidate's side and has a value from the baseline's. */
  lemma OnlyOneSideThrows(t: Tools)
    requires Sound(t) && IsSolver(t.solve)
    ensures LlrNormalized(t, 0.0, ELO, COUNTS).None?
    ensures LlrNormalized(t, -ELO, 0.0, Mirror.Flipped(COUNTS)).Some?
  {
    ThrowsBeyond(t);
    CountsAreTopped();
    var hat := ToPdf(Mirror.Flipped(COUNTS));
    FitSucceeds(t, hat);
    UniformIsDistribution();
    assert TValue(t, 0.0) == 0.0;
    UnbentNeverThrows(t, hat, UNIFORM, Passes());
  }
}
