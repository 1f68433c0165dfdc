/** The sign of the LLR, without naming a fit: results that are even speak for the hypothesis of no difference
    against any other (common/gsprt.cpp). In exact reals. */
module Signs {
  import opened Schema
  import opened Vectors
  import opened Secular
  import opened Mle
  import opened Llr
  import opened LlrDomain
  import opened Mirror

  /** The score is exactly one half. */
  predicate Even(counts: Counts) { Mean(ToPdf(counts)) == 0.5 }

  /** Symmetric results are even. */
  lemma SymmetricIsEven(counts: Counts)
    requires Flipped(counts) == counts
    ensures Even(counts)
  {
    PdfMirror(counts);
    PdfIsDistribution(counts);
    MeanMirror(ToPdf(counts));
  }

  // ---------------------------------------------------------------------------
  // The fit of no difference to even results is the results themselves
  // ---------------------------------------------------------------------------

  /** What the scores are without a difference: no bend. */
  const CENTRED: Vec := [-0.5, -0.25, 0.0, 0.25, 0.5]

  lemma Unbent(mean: real, sigma: real)
    requires sigma > 0.0
    ensures Constraint(mean, sigma, 0.0) == CENTRED
  {
    forall i | 0 <= i < 5 ensures Constraint(mean, sigma, 0.0)[i] == VALUES[i] - 0.5 {
      var z := (mean - VALUES[i]) / sigma;
      assert 0.0 * sigma * (1.0 + z * z) / 2.0 == 0.0;
    }
  }

  lemma AtZero(a: Vec, p: Vec)
    ensures InDomain(a, 0.0) && F(a, p, 0.0) == Dot(p, a) && Tilt(a, p, 0.0) == p
  {
    forall i | 0 <= i < 5 ensures Den(a[i], 0.0) == 1.0 {
    }
    assert Terms(a, p, 0.0) == Times(p, a);
    assert Tilt(a, p, 0.0) == p;
  }

  lemma CentredMean(hat: Vec)
    requires Distribution(hat) && Mean(hat) == 0.5
    ensures Dot(hat, CENTRED) == 0.0
  {
    SumFive(Times(hat, VALUES));
    SumFive(hat);
    SumFive(Times(hat, CENTRED));
  }

  lemma CentredRoot(hat: Vec)
    requires Distribution(hat) && Mean(hat) == 0.5
    ensures Straddles(CENTRED) && IsRoot(CENTRED, hat, 0.0) && Tilt(CENTRED, hat, 0.0) == hat
  {
    assert CENTRED[0] < 0.0 && CENTRED[4] > 0.0;
    CentredMean(hat);
    AtZero(CENTRED, hat);
  }

  lemma EvenStep(t: Tools, hat: Vec, pdf: Vec)
    requires Sound(t) && FindsRoots(t, hat) && Distribution(hat) && Mean(hat) == 0.5 && Positive(pdf)
    ensures Step(t, hat, 0.0, pdf) == Some(hat)
  {
    VariancePositive(pdf);
    Unbent(Mean(pdf), t.sqrt(Variance(pdf)));
    LinearisedIsOneSided(t, 0.0, pdf);
    CentredRoot(hat);
    StraddlesNonzero(CENTRED);
    UniqueRoot(CENTRED, hat, 0.0, t.solve(CENTRED, hat));
  }

  lemma SameIsClose(u: Vec, v: Vec)
    requires u == v
    ensures Close(u, v)
  {
    forall i | 0 <= i < 5 ensures Abs(u[i] - v[i]) < TOLERANCE {
      assert u[i] - v[i] == 0.0;
    }
  }

  lemma EvenFit(t: Tools, hat: Vec)
    requires Sound(t) && FindsRoots(t, hat) && Distribution(hat) && Mean(hat) == 0.5
    ensures MleTValue(t, hat, 0.0) == Some(hat)
  {
    UniformIsDistribution();
    EvenStep(t, hat, UNIFORM);
    EvenStep(t, hat, hat);
    SameIsClose(hat, hat);
    IterateOnce(t, hat, 0.0, UNIFORM, Passes(), Some(hat));
    IterateOnce(t, hat, 0.0, hat, Passes() - 1, Some(hat));
  }

  // ---------------------------------------------------------------------------
  // Any other fit is another distribution
  // ---------------------------------------------------------------------------

  /** The result of a fit is the result of its last pass. */
  lemma {:induction false} LastPass(t: Tools, hat: Vec, s: real, pdf: Vec, n: nat) returns (last: Vec)
    requires Sound(t) && Distribution(hat) && Positive(pdf) && n > 0 && Iterate(t, hat, s, pdf, n).Some?
    ensures Positive(last) && Step(t, hat, s, last) == Iterate(t, hat, s, pdf, n)
    decreases n
  {
    var next := Step(t, hat, s, pdf);
    IterateOnce(t, hat, s, pdf, n, next);
    if Close(pdf, next.value) || n == 1 {
      last := pdf;
    } else {
      last := LastPass(t, hat, s, next.value, n - 1);
    }
  }

  lemma ProductSign(s: real, sigma: real)
    requires sigma > 0.0
    ensures s > 0.0 ==> s * sigma > 0.0
    ensures s < 0.0 ==> s * sigma < 0.0
  {
    if s > 0.0 {
      MulPositive(s, sigma);
    } else if s < 0.0 {
      MulPositive(-s, sigma);
    }
  }

  lemma Beyond(mean: real, s: real, sigma: real)
    requires sigma > 0.0 && (s >= 0.0 ==> mean - REF >= s * sigma) && (s <= 0.0 ==> mean - REF <= s * sigma)
    ensures (s > 0.0 ==> mean > 0.5) && (s < 0.0 ==> mean < 0.5)
  {
    ProductSign(s, sigma);
  }

  /** A fit lies at least as far from the reference as it is asked to: its mean is s sigma or more away. */
  lemma PassPushes(t: Tools, hat: Vec, s: real, last: Vec, q: Vec)
    requires Sound(t) && FindsRoots(t, hat) && Distribution(hat) && Positive(last) && Step(t, hat, s, last) == Some(q)
    ensures Distribution(q) && Variance(q) > 0.0
    ensures s >= 0.0 ==> Mean(q) - REF >= s * t.sqrt(Variance(q))
    ensures s <= 0.0 ==> Mean(q) - REF <= s * t.sqrt(Variance(q))
    ensures (s > 0.0 ==> Mean(q) > 0.5) && (s < 0.0 ==> Mean(q) < 0.5)
  {
    StepIsExact(t, hat, s, last, q);
    VariancePositive(q);
    VariancePositive(last);
    PushedBy(q, Mean(last), t.sqrt(Variance(last)), t.sqrt(Variance(q)), s, Dot(q, Linearised(t, s, last)));
  }

  lemma PushedBy(q: Vec, mean: real, before: real, sigma: real, s: real, dot: real)
    requires Distribution(q) && before > 0.0 && sigma > 0.0 && sigma * sigma == Variance(q)
    requires dot == Dot(q, Constraint(mean, before, s)) && dot == 0.0
    ensures s >= 0.0 ==> Mean(q) - REF >= s * sigma
    ensures s <= 0.0 ==> Mean(q) - REF <= s * sigma
    ensures (s > 0.0 ==> Mean(q) > 0.5) && (s < 0.0 ==> Mean(q) < 0.5)
  {
    var f, gap := mean - Mean(q), Mean(q) - REF;
    MeanOfBends(q, mean, before, s, f);
    assert before * dot == 0.0;
    ConstraintPushes(s, before, sigma, gap, f);
    Beyond(Mean(q), s, sigma);
  }

  lemma FitPushes(t: Tools, hat: Vec, s: real, q: Vec)
    requires Sound(t) && FindsRoots(t, hat) && Distribution(hat) && MleTValue(t, hat, s) == Some(q)
    ensures Distribution(q) && Variance(q) > 0.0
    ensures s >= 0.0 ==> Mean(q) - REF >= s * t.sqrt(Variance(q))
    ensures s <= 0.0 ==> Mean(q) - REF <= s * t.sqrt(Variance(q))
    ensures (s > 0.0 ==> Mean(q) > 0.5) && (s < 0.0 ==> Mean(q) < 0.5)
  {
    UniformIsDistribution();
    var last := LastPass(t, hat, s, UNIFORM, Passes());
    PassPushes(t, hat, s, last, q);
  }

  // ---------------------------------------------------------------------------
  // The sign
  // ---------------------------------------------------------------------------

  lemma ZeroDot(r: Vec)
    ensures Dot(r, ZEROS) == 0.0
  {
    SumFive(Times(r, ZEROS));
  }

  /** No distribution is likelier than the frequencies themselves, and every other is less likely. */
  lemma OwnIsLikeliest(ln: real -> real, sqrt: real -> real, p: Vec, r: Vec)
    requires IsLn(ln) && IsSqrt(sqrt) && Distribution(p) && Distribution(r)
    ensures Likelihood(ln, p, r) <= Likelihood(ln, p, p)
    ensures r != p ==> Likelihood(ln, p, r) < Likelihood(ln, p, p)
  {
    ZeroDot(r);
    ZeroDot(p);
    AtZero(ZEROS, p);
    TiltIsLikeliest(ln, sqrt, ZEROS, p, 0.0, r);
  }

  lemma OverAllSign(mass: real, x: real)
    requires mass > 0.0
    ensures x < 0.0 ==> OverAll(mass, x) < 0.0
    ensures x > 0.0 ==> OverAll(mass, x) > 0.0
    ensures x == 0.0 ==> OverAll(mass, x) == 0.0
  {
    ProductSign(x, mass);
  }

  lemma CompareWithOwn(t: Tools, mass: real, p: Vec, r: Vec)
    requires IsSqrt(t.sqrt) && IsLn(t.ln) && Distribution(p) && Distribution(r) && mass > 0.0
    ensures var here, there := Compare(t.ln, mass, p, Some(p), Some(r)), Compare(t.ln, mass, p, Some(r), Some(p));
            && here.Some? && there.Some?
            && (r != p ==> here.value < 0.0 < there.value)
            && (r == p ==> here.value == there.value == 0.0)
  {
    OwnIsLikeliest(t.ln, t.sqrt, p, r);
    RatiosSum(t.ln, p, r, p);
    RatiosSum(t.ln, p, p, r);
    OverAllSign(mass, Sum(LogRatios(t.ln, p, r, p)));
    OverAllSign(mass, Sum(LogRatios(t.ln, p, p, r)));
  }

  lemma TValueSign(t: Tools, elo: real)
    requires IsSqrt(t.sqrt)
    ensures (TValue(t, elo) == 0.0 <==> elo == 0.0) && (TValue(t, elo) > 0.0 <==> elo > 0.0)
  {
    var e, r := elo / NELO_DIVIDED_BY_NT, t.sqrt(2.0);
    assert e * NELO_DIVIDED_BY_NT == elo;
    ProductSign(e, r);
  }

  lemma FitOfEven(t: Tools, elo: real, counts: Counts) returns (q: Vec)
    requires Sound(t) && IsSolver(t.solve) && Modest(counts) && Even(counts) && !TooFar(elo)
    ensures Distribution(ToPdf(counts)) && Distribution(q) && MleTValue(t, ToPdf(counts), TValue(t, elo)) == Some(q)
    ensures q == ToPdf(counts) <==> elo == 0.0
  {
    ModestFindsRoots(t, counts);
    var hat := ToPdf(counts);
    FitThrows(t, hat, elo);
    TValueSign(t, elo);
    q := MleTValue(t, hat, TValue(t, elo)).value;
    if elo == 0.0 {
      EvenFit(t, hat);
    } else {
      FitPushes(t, hat, TValue(t, elo), q);
    }
  }

  /** The fit of a stronger candidate scores more than one half, that of a weaker one less. */
  lemma FitLeans(t: Tools, elo: real, counts: Counts) returns (q: Vec)
    requires Sound(t) && IsSolver(t.solve) && Modest(counts) && !TooFar(elo) && elo != 0.0
    ensures Distribution(ToPdf(counts)) && Distribution(q) && MleTValue(t, ToPdf(counts), TValue(t, elo)) == Some(q)
    ensures (elo > 0.0 ==> Mean(q) > 0.5) && (elo < 0.0 ==> Mean(q) < 0.5)
  {
    ModestFindsRoots(t, counts);
    var hat := ToPdf(counts);
    FitThrows(t, hat, elo);
    TValueSign(t, elo);
    q := MleTValue(t, hat, TValue(t, elo)).value;
    FitPushes(t, hat, TValue(t, elo), q);
  }

  /** Even results speak for no difference: against any other hypothesis the LLR is on its side, strictly. */
  lemma EvenSpeaksForNoDifference(t: Tools, elo: real, counts: Counts) returns (here: real, there: real)
    requires Sound(t) && IsSolver(t.solve) && IsLn(t.ln) && Modest(counts) && Pairs(counts) > 0 && Even(counts) && !TooFar(elo)
    ensures LlrNormalized(t, 0.0, elo, counts) == Some(here) && LlrNormalized(t, elo, 0.0, counts) == Some(there)
    ensures elo != 0.0 ==> here < 0.0 < there
    ensures elo == 0.0 ==> here == there == 0.0
  {
    var p := FitOfEven(t, 0.0, counts);
    var q := FitOfEven(t, elo, counts);
    MassPositive(counts);
    CompareWithOwn(t, Mass(counts), p, q);
    here, there := LlrNormalized(t, 0.0, elo, counts).value, LlrNormalized(t, elo, 0.0, counts).value;
  }

  /** So do symmetric results. */
  lemma SymmetricSpeaksForNoDifference(t: Tools, elo: real, counts: Counts) returns (here: real, there: real)
    requires Sound(t) && IsSolver(t.solve) && IsLn(t.ln) && Modest(counts) && Pairs(counts) > 0 && !TooFar(elo)
    requires Flipped(counts) == counts
    ensures LlrNormalized(t, 0.0, elo, counts) == Some(here) && LlrNormalized(t, elo, 0.0, counts) == Some(there)
    ensures elo != 0.0 ==> here < 0.0 < there
  {
    SymmetricIsEven(counts);
    here, there := EvenSpeaksForNoDifference(t, elo, counts);
  }
}
