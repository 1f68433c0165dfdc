/** When llr_normalized (common/gsprt.cpp) has a value. A hypothesis far from zero makes the first pass of
    its fit throw, for any counts. As long as no category is nearly empty nothing else does: the later
    passes never throw. In exact reals. */
module LlrDomain {
  import opened Schema
  import opened Vectors
  import opened Secular
  import opened Bracket
  import opened Mle
  import opened Llr

  // ---------------------------------------------------------------------------
  // The mean of the bent scores
  // ---------------------------------------------------------------------------

  /** A bent score, times sigma. */
  lemma BendTimes(v: real, mean: real, sigma: real, s: real, d: real)
    requires sigma > 0.0 && d == mean - v
    ensures sigma * Bend(v, mean, sigma, s) == sigma * (v - REF) - s * (sigma * sigma + d * d) / 2.0
  {
    var z := d / sigma;
    assert z * sigma == d;
    var b, w := s * sigma * (1.0 + z * z) / 2.0, sigma * (1.0 + z * z);
    assert b == s * w / 2.0;
    assert sigma * w == sigma * sigma + d * d by {
      assert sigma * (sigma * (z * z)) == (z * sigma) * (z * sigma);
    }
    assert sigma * b == s * (sigma * w) / 2.0;
  }

  /** One score's part of the mean, with the mean m of the weights put in. */
  lemma BendPart(q: real, v: real, mean: real, sigma: real, s: real, m: real, f: real)
    requires sigma > 0.0 && f == mean - m
    ensures sigma * (q * Bend(v, mean, sigma, s))
         == sigma * (q * v) - sigma * REF * q
            - s * (sigma * sigma * q + SpreadOf(q, v, m) + 2.0 * f * (m * q - q * v) + f * f * q) / 2.0
  {
    var d, e := mean - v, m - v;
    BendTimes(v, mean, sigma, s, d);
    assert d * d == e * e + 2.0 * f * e + f * f;
    assert SpreadOf(q, v, m) == q * (e * e);
    var b := Bend(v, mean, sigma, s);
    assert sigma * (q * b) == q * (sigma * b);
    assert q * (s * (sigma * sigma + d * d) / 2.0) == s * (q * (sigma * sigma) + q * (d * d)) / 2.0;
    assert q * (d * d) == q * (e * e) + 2.0 * f * (q * e) + f * f * q;
  }

  lemma {:induction false} LinearTo(y: Vec, a: real, u: Vec, b: real, v: Vec, c: real, w: Vec, n: nat)
    requires n <= 5 && forall i | 0 <= i < 5 :: y[i] == a * u[i] + b * v[i] + c * w[i]
    ensures SumTo(y, n) == a * SumTo(u, n) + b * SumTo(v, n) + c * SumTo(w, n)
  {
    if n > 0 {
      LinearTo(y, a, u, b, v, c, w, n - 1);
      assert a * (SumTo(u, n - 1) + u[n - 1]) == a * SumTo(u, n - 1) + a * u[n - 1];
      assert b * (SumTo(v, n - 1) + v[n - 1]) == b * SumTo(v, n - 1) + b * v[n - 1];
      assert c * (SumTo(w, n - 1) + w[n - 1]) == c * SumTo(w, n - 1) + c * w[n - 1];
    }
  }

  lemma AddUp(sigma: real, y: Vec, a: real, u: Vec, b: real, v: Vec, c: real, w: Vec)
    requires forall i | 0 <= i < 5 :: Scale(sigma, y)[i] == a * u[i] + b * v[i] + c * w[i]
    ensures sigma * Sum(y) == a * Sum(u) + b * Sum(v) + c * Sum(w)
  {
    LinearTo(Scale(sigma, y), a, u, b, v, c, w, 5);
    SumScale(sigma, y);
  }

  /** The same factors for every category. */
  lemma Rearrange(q: real, qv: real, spread: real, square: real, f: real, ff: real, m: real, s: real, sigma: real,
                  x: real, k: real, a: real, b: real, c: real)
    requires x == square * q + spread + 2.0 * f * (m * q - qv) + ff * q && k == square + 2.0 * (f * m) + ff
    requires a == sigma + s * f && b == -sigma * REF - s * k / 2.0 && c == -s / 2.0
    ensures sigma * qv - sigma * REF * q - s * x / 2.0 == a * qv + b * q + c * spread
  {
    var fm, fqv, kq, sf, sk := f * m, f * qv, k * q, s * f, s * k;
    assert f * (m * q) == fm * q;
    assert x == kq + spread - 2.0 * fqv;
    assert s * x == s * kq + s * spread - 2.0 * (s * fqv);
    assert s * kq == sk * q && s * fqv == sf * qv;
    assert a * qv == sigma * qv + sf * qv;
    assert b * q == -sigma * REF * q - sk * q / 2.0;
  }

  lemma BendLinear(q: real, v: real, mean: real, sigma: real, s: real, m: real, f: real, k: real, a: real, b: real, c: real)
    requires sigma > 0.0 && f == mean - m && k == sigma * sigma + 2.0 * (f * m) + f * f
    requires a == sigma + s * f && b == -sigma * REF - s * k / 2.0 && c == -s / 2.0
    ensures sigma * (q * Bend(v, mean, sigma, s)) == a * (q * v) + b * q + c * SpreadOf(q, v, m)
  {
    BendPart(q, v, mean, sigma, s, m, f);
    var qv, spread := q * v, SpreadOf(q, v, m);
    var x := sigma * sigma * q + spread + 2.0 * f * (m * q - qv) + f * f * q;
    Rearrange(q, qv, spread, sigma * sigma, f, f * f, m, s, sigma, x, k, a, b, c);
  }

  lemma Collect(sigma: real, s: real, m: real, variance: real, f: real, square: real, ff: real, k: real, a: real, b: real, c: real)
    requires k == square + 2.0 * (f * m) + ff
    requires a == sigma + s * f && b == -sigma * REF - s * k / 2.0 && c == -s / 2.0
    ensures a * m + b + c * variance == sigma * (m - REF) - s * (square + variance + ff) / 2.0
  {
    var fm := f * m;
    assert s * k == s * square + 2.0 * (s * fm) + s * ff;
    assert (s * f) * m == s * fm;
    assert a * m == sigma * m + (s * f) * m;
    assert s * (square + variance + ff) == s * square + s * variance + s * ff;
  }

  lemma BendEach(q: Vec, mean: real, sigma: real, s: real, m: real, f: real, k: real, a: real, b: real, c: real, qb: Vec)
    requires sigma > 0.0 && f == mean - m && k == sigma * sigma + 2.0 * (f * m) + f * f
    requires a == sigma + s * f && b == -sigma * REF - s * k / 2.0 && c == -s / 2.0
    requires qb == Times(q, Constraint(mean, sigma, s))
    ensures forall i | 0 <= i < 5 :: Scale(sigma, qb)[i] == a * Times(q, VALUES)[i] + b * q[i] + c * Spread(q, m)[i]
  {
    forall i | 0 <= i < 5 ensures Scale(sigma, qb)[i] == a * Times(q, VALUES)[i] + b * q[i] + c * Spread(q, m)[i] {
      BendLinear(q[i], VALUES[i], mean, sigma, s, m, f, k, a, b, c);
    }
  }

  /** The mean of the bent scores over any distribution, times sigma. */
  lemma MeanOfBends(q: Vec, mean: real, sigma: real, s: real, f: real)
    requires Distribution(q) && sigma > 0.0 && f == mean - Mean(q)
    ensures sigma * Dot(q, Constraint(mean, sigma, s))
         == sigma * (Mean(q) - REF) - s * (sigma * sigma + Variance(q) + f * f) / 2.0
  {
    var m := Mean(q);
    var k := sigma * sigma + 2.0 * (f * m) + f * f;
    var a, b, c := sigma + s * f, -sigma * REF - s * k / 2.0, -s / 2.0;
    var qb := Times(q, Constraint(mean, sigma, s));
    BendEach(q, mean, sigma, s, m, f, k, a, b, c, qb);
    AddUp(sigma, qb, a, Times(q, VALUES), b, q, c, Spread(q, m));
    Collect(sigma, s, m, Variance(q), f, sigma * sigma, f * f, k, a, b, c);
  }

  // ---------------------------------------------------------------------------
  // The passes after the first never throw
  // ---------------------------------------------------------------------------

  lemma Means(x: real, y: real)
    ensures x * x + y * y >= 2.0 * x * y
  {
    var d := x - y;
    if d != 0.0 {
      Square(d);
    }
    assert d * d == x * x - 2.0 * x * y + y * y;
  }

  lemma NonnegativeProduct(x: real, y: real)
    requires x >= 0.0 && y >= 0.0
    ensures x * y >= 0.0
  {
  }

  /** What the constraint of one pass says about the next: the mean is s sigma or more away from the
      reference. */
  lemma ConstraintPushes(s: real, before: real, sigma: real, gap: real, f: real)
    requires before > 0.0 && sigma > 0.0
    requires before * gap == s * (before * before + sigma * sigma + f * f) / 2.0
    ensures s >= 0.0 ==> gap >= s * sigma
    ensures s <= 0.0 ==> gap <= s * sigma
  {
    Means(before, sigma);
    if f != 0.0 {
      Square(f);
    }
    var excess := before * before + sigma * sigma + f * f - 2.0 * before * sigma;
    assert s * (before * before + sigma * sigma + f * f) / 2.0 == before * (s * sigma) + s * excess / 2.0;
    if s >= 0.0 {
      NonnegativeProduct(s, excess);
      if gap < s * sigma {
        MulLess(before, gap, s * sigma);
      }
    } else {
      NonnegativeProduct(-s, excess);
      if gap > s * sigma {
        MulLess(before, s * sigma, gap);
      }
    }
  }

  lemma EndsOf(mean: real, sigma: real, s: real)
    requires sigma > 0.0
    ensures s >= 0.0 ==> Bend(0.0, mean, sigma, s) < 0.0
    ensures s <= 0.0 ==> Bend(1.0, mean, sigma, s) > 0.0
  {
    BendTimes(0.0, mean, sigma, s, mean);
    BendTimes(1.0, mean, sigma, s, mean - 1.0);
    EndSign(mean, sigma, s, Bend(0.0, mean, sigma, s), 0.0, mean);
    EndSign(mean, sigma, s, Bend(1.0, mean, sigma, s), 1.0, mean - 1.0);
  }

  lemma EndSign(mean: real, sigma: real, s: real, b: real, v: real, d: real)
    requires sigma > 0.0 && sigma * b == sigma * (v - REF) - s * (sigma * sigma + d * d) / 2.0
    ensures s >= 0.0 && v == 0.0 ==> b < 0.0
    ensures s <= 0.0 && v == 1.0 ==> b > 0.0
  {
    MulPositive(sigma, sigma);
    if d != 0.0 {
      Square(d);
    }
    var w := sigma * sigma + d * d;
    if s >= 0.0 && v == 0.0 {
      NonnegativeProduct(s, w);
      if b >= 0.0 {
        NonnegativeProduct(sigma, b);
      }
    } else if s <= 0.0 && v == 1.0 {
      NonnegativeProduct(-s, w);
      if b <= 0.0 {
        NonnegativeProduct(sigma, -b);
      }
    }
  }

  lemma SomeAbove(q: Vec, a: Vec)
    requires Positive(q) && Dot(q, a) >= 0.0 && a[0] < 0.0
    ensures exists i :: 0 <= i < 5 && a[i] > 0.0
  {
    SumFive(Times(q, a));
    MulPositive(q[0], -a[0]);
    if forall i | 0 <= i < 5 :: a[i] <= 0.0 {
      forall i | 0 <= i < 5 ensures Times(q, a)[i] <= 0.0 {
        NonnegativeProduct(q[i], -a[i]);
      }
    }
  }

  lemma SomeBelow(q: Vec, a: Vec)
    requires Positive(q) && Dot(q, a) <= 0.0 && a[4] > 0.0
    ensures exists i :: 0 <= i < 5 && a[i] < 0.0
  {
    SumFive(Times(q, a));
    MulPositive(q[4], a[4]);
    if forall i | 0 <= i < 5 :: a[i] >= 0.0 {
      forall i | 0 <= i < 5 ensures Times(q, a)[i] >= 0.0 {
        NonnegativeProduct(q[i], a[i]);
      }
    }
  }

  /** The mean of a distribution's own linearised constraint. */
  lemma OwnMean(q: Vec, sigma: real, s: real)
    requires Distribution(q) && sigma > 0.0 && sigma * sigma == Variance(q)
    ensures Dot(q, Constraint(Mean(q), sigma, s)) == Mean(q) - REF - s * sigma
  {
    var dot, gap := Dot(q, Constraint(Mean(q), sigma, s)), Mean(q) - REF;
    MeanOfBends(q, Mean(q), sigma, s, 0.0);
    assert sigma * dot == sigma * gap - s * (sigma * sigma);
    assert sigma * (gap - s * sigma) == sigma * gap - s * (sigma * sigma);
    SameQuotient(dot, gap - s * sigma, sigma);
  }

  /** What the constraint a distribution meets says about its own linearised constraint. */
  lemma MetConstraint(q: Vec, mean: real, before: real, sigma: real, s: real, dot: real)
    requires Distribution(q) && before > 0.0 && sigma > 0.0 && sigma * sigma == Variance(q)
    requires dot == Dot(q, Constraint(mean, before, s)) && dot == 0.0
    ensures s >= 0.0 ==> Dot(q, Constraint(Mean(q), sigma, s)) >= 0.0
    ensures s <= 0.0 ==> Dot(q, Constraint(Mean(q), sigma, s)) <= 0.0
  {
    var f, gap := mean - Mean(q), Mean(q) - REF;
    MeanOfBends(q, mean, before, s, f);
    assert before * dot == 0.0;
    ConstraintPushes(s, before, sigma, gap, f);
    OwnMean(q, sigma, s);
  }

  lemma OwnStraddles(q: Vec, sigma: real, s: real, a: Vec)
    requires Distribution(q) && sigma > 0.0 && a == Constraint(Mean(q), sigma, s)
    requires s >= 0.0 ==> Dot(q, a) >= 0.0
    requires s <= 0.0 ==> Dot(q, a) <= 0.0
    ensures Straddles(a)
  {
    EndsOf(Mean(q), sigma, s);
    assert a[0] == Bend(0.0, Mean(q), sigma, s) && a[4] == Bend(1.0, Mean(q), sigma, s);
    if s >= 0.0 {
      SomeAbove(q, a);
    } else {
      SomeBelow(q, a);
    }
  }

  lemma NotAbove(v: real, mean: real, sigma: real, s: real, d: real, b: real, w: real)
    requires sigma > 0.0 && d == mean - v && b == Bend(v, mean, sigma, s) && w == sigma * sigma + d * d
    ensures s >= 0.0 ==> b <= v - REF
    ensures s <= 0.0 ==> b >= v - REF
  {
    BendTimes(v, mean, sigma, s, d);
    MulPositive(sigma, sigma);
    if d != 0.0 {
      Square(d);
    }
    if s >= 0.0 {
      NonnegativeProduct(s, w);
      if b > v - REF {
        MulLess(sigma, v - REF, b);
      }
    }
    if s <= 0.0 {
      NonnegativeProduct(-s, w);
      if b < v - REF {
        MulLess(sigma, b, v - REF);
      }
    }
  }

  /** Bending moves all scores to the same side. */
  lemma BentIsOneSided(mean: real, sigma: real, s: real)
    requires sigma > 0.0
    ensures OneSided(Constraint(mean, sigma, s))
  {
    var a := Constraint(mean, sigma, s);
    forall i | 0 <= i < 5 ensures (s >= 0.0 ==> a[i] <= 0.5) && (s <= 0.0 ==> a[i] >= -0.5) {
      var d := mean - VALUES[i];
      NotAbove(VALUES[i], mean, sigma, s, d, a[i], sigma * sigma + d * d);
    }
  }

  /** For the frequencies hat the solver finds the root in every pass. */
  ghost predicate FindsRoots(t: Tools, hat: Vec) {
    forall a: Vec | Straddles(a) && OneSided(a) :: IsRoot(a, hat, t.solve(a, hat))
  }

  /** It does if no category is nearly empty. */
  lemma AmpleFindsRoots(t: Tools, hat: Vec)
    requires IsSolver(t.solve) && Distribution(hat) && Ample(hat)
    ensures FindsRoots(t, hat)
  {
    forall a: Vec | Straddles(a) && OneSided(a) ensures IsRoot(a, hat, t.solve(a, hat)) {
      RootInBracket(a, hat, t.solve(a, hat));
    }
  }

  lemma LinearisedIsOneSided(t: Tools, s: real, pdf: Vec)
    requires IsSqrt(t.sqrt) && Positive(pdf)
    ensures OneSided(Linearised(t, s, pdf))
  {
    VariancePositive(pdf);
    BentIsOneSided(Mean(pdf), t.sqrt(Variance(pdf)), s);
  }

  /** The result of such a pass is a distribution that meets the linearised constraint. */
  lemma StepIsExact(t: Tools, hat: Vec, s: real, pdf: Vec, next: Vec)
    requires Sound(t) && FindsRoots(t, hat) && Distribution(hat) && Positive(pdf) && Step(t, hat, s, pdf) == Some(next)
    ensures Distribution(next) && Dot(next, Linearised(t, s, pdf)) == 0.0
  {
    var a := Linearised(t, s, pdf);
    LinearisedIsOneSided(t, s, pdf);
    TiltAtRoot(a, hat, t.solve(a, hat));
  }

  /** Once a pass has succeeded, so does the next. */
  lemma NextStraddles(t: Tools, hat: Vec, s: real, pdf: Vec, next: Vec)
    requires Sound(t) && FindsRoots(t, hat) && Distribution(hat) && Distribution(pdf) && Step(t, hat, s, pdf) == Some(next)
    ensures Distribution(next) && Straddles(Linearised(t, s, next))
  {
    VariancePositive(pdf);
    VariancePositive(next);
    var a, sigma := Linearised(t, s, pdf), t.sqrt(Variance(next));
    StepIsExact(t, hat, s, pdf, next);
    MetConstraint(next, Mean(pdf), t.sqrt(Variance(pdf)), sigma, s, Dot(next, a));
    OwnStraddles(next, sigma, s, Linearised(t, s, next));
  }

  /** A fit that has succeeded. */
  predicate Fitted(result: Option<Vec>) { result.Some? && Distribution(result.value) }

  lemma {:induction false} IterateDefined(t: Tools, hat: Vec, s: real, pdf: Vec, n: nat)
    requires Sound(t) && FindsRoots(t, hat) && Distribution(hat) && Distribution(pdf) && Straddles(Linearised(t, s, pdf))
    ensures Fitted(Iterate(t, hat, s, pdf, n))
    decreases n
  {
    if n > 0 {
      var next := Step(t, hat, s, pdf).value;
      NextStraddles(t, hat, s, pdf, next);
      IterateOnce(t, hat, s, pdf, n, Some(next));
      IterateDefined(t, hat, s, next, n - 1);
    }
  }

  // ---------------------------------------------------------------------------
  // The first pass
  // ---------------------------------------------------------------------------

  /** The uniform distribution, from which a fit starts. */
  lemma UniformMoments()
    ensures Mean(UNIFORM) == 0.5 && Variance(UNIFORM) == 0.125
  {
    SumFive(Times(UNIFORM, VALUES));
    SumFive(Spread(UNIFORM, 0.5));
  }

  lemma RootOfQuarter(x: real)
    requires x > 0.0 && x * x == 0.25
    ensures x == 0.5
  {
    if x < 0.5 {
      MulLess(x, x, 0.5);
    } else if x > 0.5 {
      MulLess(x, 0.5, x);
    }
  }

  lemma HalfRoot(r: real, sigma: real)
    requires r > 0.0 && sigma > 0.0 && r * r == 2.0 && sigma * sigma == 0.125
    ensures r * sigma == 0.5
  {
    MulPositive(r, sigma);
    assert (r * sigma) * (r * sigma) == (r * r) * (sigma * sigma);
    RootOfQuarter(r * sigma);
  }

  /** The first pass's score, cleared of roots: e is the Elo over the constant. */
  lemma FirstBend(v: real, r: real, sigma: real, e: real, d: real)
    requires r > 0.0 && sigma > 0.0 && r * r == 2.0 && sigma * sigma == 0.125 && d == 0.5 - v
    ensures Bend(v, 0.5, sigma, e * r) == (v - 0.5) - e * (0.125 + d * d) * 2.0
  {
    HalfRoot(r, sigma);
    var b, w := Bend(v, 0.5, sigma, e * r), 0.125 + d * d;
    BendTimes(v, 0.5, sigma, e * r, d);
    assert sigma * b == sigma * (v - 0.5) - (e * r) * w / 2.0;
    assert r * (sigma * b) == (r * sigma) * b;
    assert r * (sigma * (v - 0.5)) == (r * sigma) * (v - 0.5);
    assert r * ((e * r) * w) == (r * r) * (e * w);
  }

  lemma FirstStraddles(r: real, mean: real, sigma: real, e: real, s: real, a: Vec)
    requires r > 0.0 && sigma > 0.0 && r * r == 2.0 && sigma * sigma == 0.125
    requires mean == 0.5 && s == e * r && a == Constraint(mean, sigma, s)
    ensures Straddles(a) <==> -2.0 < 3.0 * e < 2.0
  {
    FirstBend(0.0, r, sigma, e, 0.5);
    FirstBend(0.25, r, sigma, e, 0.25);
    FirstBend(0.5, r, sigma, e, 0.0);
    FirstBend(0.75, r, sigma, e, -0.25);
    FirstBend(1.0, r, sigma, e, -0.5);
    assert a[0] == -0.5 - 0.75 * e && a[1] == -0.25 - 0.375 * e && a[2] == -0.25 * e;
    assert a[3] == 0.25 - 0.375 * e && a[4] == 0.5 - 0.75 * e;
  }

  /** The hypothesis is too far out for the first pass. */
  predicate TooFar(elo: real) { 3.0 * elo <= -2.0 * NELO_DIVIDED_BY_NT || 3.0 * elo >= 2.0 * NELO_DIVIDED_BY_NT }

  /** Whatever the solver. */
  lemma FirstPass(t: Tools, elo: real)
    requires IsSqrt(t.sqrt)
    ensures Distribution(UNIFORM)
    ensures Straddles(Linearised(t, TValue(t, elo), UNIFORM)) <==> !TooFar(elo)
  {
    UniformIsDistribution();
    UniformMoments();
    var e := elo / NELO_DIVIDED_BY_NT;
    assert e * NELO_DIVIDED_BY_NT == elo;
    VariancePositive(UNIFORM);
    FirstStraddles(t.sqrt(2.0), Mean(UNIFORM), t.sqrt(Variance(UNIFORM)), e, TValue(t, elo), Linearised(t, TValue(t, elo), UNIFORM));
  }

  /** A hypothesis too far out makes its fit throw, for any counts. */
  lemma FarFitThrows(t: Tools, hat: Vec, elo: real)
    requires Sound(t) && Distribution(hat) && TooFar(elo)
    ensures MleTValue(t, hat, TValue(t, elo)).None?
  {
    FirstPass(t, elo);
  }

  /** Where the solver finds the roots that is the only way a fit throws, and its result is a distribution. */
  lemma FitThrows(t: Tools, hat: Vec, elo: real)
    requires Sound(t) && FindsRoots(t, hat) && Distribution(hat)
    ensures MleTValue(t, hat, TValue(t, elo)).None? <==> TooFar(elo)
    ensures !TooFar(elo) ==> Fitted(MleTValue(t, hat, TValue(t, elo)))
  {
    FirstPass(t, elo);
    if !TooFar(elo) {
      IterateDefined(t, hat, TValue(t, elo), UNIFORM, Passes());
    }
  }

  // ---------------------------------------------------------------------------
  // How many pairs it takes to empty a category
  // ---------------------------------------------------------------------------

  const PAIR_LIMIT: nat := 1_900_000

  /** Few enough pairs that no category is nearly empty: a category without pairs still weighs a
      thousandth of one, and one with a pair weighs one. */
  predicate Modest(counts: Counts) {
    Pairs(counts) <= PAIR_LIMIT || (Pairs(counts) <= 1000 * PAIR_LIMIT && forall i | 0 <= i < 5 :: counts[i] > 0)
  }

  lemma MassBound(counts: Counts)
    ensures Mass(counts) <= Pairs(counts) as real + 0.005
  {
    SumFive(Weights(counts));
  }

  lemma WeightIsAmple(w: real, mass: real, least: real, bound: real)
    requires w >= least && 0.0 < mass <= bound && least >= FLOOR * bound
    ensures w / mass >= FLOOR
  {
    MulOrder(FLOOR, mass, bound);
    QuotientAtLeast(w, FLOOR, mass);
  }

  lemma ModestIsAmple(counts: Counts)
    requires Modest(counts)
    ensures Distribution(ToPdf(counts)) && Ample(ToPdf(counts))
  {
    PdfIsDistribution(counts);
    MassBound(counts);
    MassPositive(counts);
    var few := Pairs(counts) <= PAIR_LIMIT;
    forall i | 0 <= i < 5 ensures ToPdf(counts)[i] >= FLOOR {
      WeightIsAmple(Weights(counts)[i], Mass(counts), if few then 0.001 else 1.0, if few then 1_900_000.005 else 1_900_000_000.005);
    }
  }

  lemma ModestFindsRoots(t: Tools, counts: Counts)
    requires IsSolver(t.solve) && Modest(counts)
    ensures Distribution(ToPdf(counts)) && FindsRoots(t, ToPdf(counts))
  {
    ModestIsAmple(counts);
    AmpleFindsRoots(t, ToPdf(counts));
  }

  /** llr_normalized throws for any counts with a pair when one of the hypotheses is too far out, whatever
      the solver. */
  lemma FarLlrThrows(t: Tools, elo0: real, elo1: real, counts: Counts)
    requires Sound(t) && Pairs(counts) > 0 && (TooFar(elo0) || TooFar(elo1))
    ensures LlrNormalized(t, elo0, elo1, counts).None?
  {
    PdfIsDistribution(counts);
    if TooFar(elo0) {
      FarFitThrows(t, ToPdf(counts), elo0);
    }
    if TooFar(elo1) {
      FarFitThrows(t, ToPdf(counts), elo1);
    }
  }

  /** With no category nearly empty it throws only then. */
  lemma LlrThrows(t: Tools, elo0: real, elo1: real, counts: Counts)
    requires Sound(t) && IsSolver(t.solve) && Modest(counts)
    ensures LlrNormalized(t, elo0, elo1, counts).None? <==> Pairs(counts) > 0 && (TooFar(elo0) || TooFar(elo1))
  {
    ModestFindsRoots(t, counts);
    FitThrows(t, ToPdf(counts), elo0);
    FitThrows(t, ToPdf(counts), elo1);
  }
}
