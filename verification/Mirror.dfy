/** The LLR is mirror-antisymmetric as long as no category is nearly empty: seen from the baseline's side
    (counts reversed, elo0 and elo1 exchanged and negated) the same results give the opposite ratio,
    through every pass of the maximum-likelihood loop, and the opposite verdict. */
module Mirror {
  import opened Schema
  import opened Outcomes
  import opened Lifecycle
  import opened Vectors
  import opened Secular
  import opened Bracket
  import opened Mle
  import opened Llr
  import opened LlrDomain

  // ---------------------------------------------------------------------------
  // Moments
  // ---------------------------------------------------------------------------

  lemma ValuesMirror(i: nat)
    requires i < 5
    ensures VALUES[4 - i] == 1.0 - VALUES[i]
  {
  }

  lemma MeanMirror(p: Vec)
    requires Sum(p) == 1.0
    ensures Mean(Reversed(p)) == 1.0 - Mean(p)
  {
    SumFive(p);
    SumFive(Times(p, VALUES));
    SumFive(Times(Reversed(p), VALUES));
  }

  lemma SpreadMirror(p: real, v: real, m: real)
    ensures SpreadOf(p, 1.0 - v, 1.0 - m) == SpreadOf(p, v, m)
  {
    NegTwice(p, v - m);
    assert (1.0 - v) - (1.0 - m) == -(v - m);
  }

  lemma NegTwice(p: real, d: real)
    ensures p * (-d) * (-d) == p * d * d
  {
  }

  lemma VarianceMirror(p: Vec)
    requires Sum(p) == 1.0
    ensures Variance(Reversed(p)) == Variance(p)
  {
    MeanMirror(p);
    var m := Mean(p);
    forall i | 0 <= i < 5 ensures Spread(Reversed(p), 1.0 - m)[i] == Reversed(Spread(p, m))[i] {
      ValuesMirror(4 - i);
      SpreadMirror(p[4 - i], VALUES[4 - i], m);
    }
    assert Spread(Reversed(p), 1.0 - m) == Reversed(Spread(p, m));
    SumReversed(Spread(p, m));
  }

  // ---------------------------------------------------------------------------
  // The constraint and the secular equation
  // ---------------------------------------------------------------------------

  function NegReversed(a: Vec): Vec { seq(5, i requires 0 <= i < 5 => -a[4 - i]) }

  lemma NegQuotient(x: real, y: real, d: real)
    requires d > 0.0 && y == -x
    ensures y / d == -(x / d)
  {
    var q, r := x / d, y / d;
    assert q * d == x && r * d == y;
    assert (-q) * d == -(q * d);
    SameQuotient(r, -q, d);
  }

  lemma BendParts(s: real, sigma: real, z: real, w: real)
    requires w == -z
    ensures (-s) * sigma * (1.0 + w * w) / 2.0 == -(s * sigma * (1.0 + z * z) / 2.0)
  {
    assert w * w == z * z;
    var b := 1.0 + z * z;
    assert (-s) * sigma * b == -(s * sigma * b);
  }

  lemma BendMirror(v: real, m: real, sigma: real, s: real)
    requires sigma > 0.0
    ensures Bend(1.0 - v, 1.0 - m, sigma, -s) == -Bend(v, m, sigma, s)
  {
    var x, y := m - v, (1.0 - m) - (1.0 - v);
    NegQuotient(x, y, sigma);
    BendParts(s, sigma, x / sigma, y / sigma);
  }

  lemma ConstraintMirror(m: real, sigma: real, s: real)
    requires sigma > 0.0
    ensures Constraint(1.0 - m, sigma, -s) == NegReversed(Constraint(m, sigma, s))
  {
    forall i | 0 <= i < 5 ensures Constraint(1.0 - m, sigma, -s)[i] == NegReversed(Constraint(m, sigma, s))[i] {
      ValuesMirror(4 - i);
      BendMirror(VALUES[4 - i], m, sigma, s);
    }
  }

  lemma LinearisedMirror(t: Tools, s: real, pdf: Vec)
    requires Sound(t) && Distribution(pdf)
    ensures Positive(Reversed(pdf))
    ensures Linearised(t, -s, Reversed(pdf)) == NegReversed(Linearised(t, s, pdf))
  {
    MeanMirror(pdf);
    VarianceMirror(pdf);
    VariancePositive(pdf);
    ConstraintMirror(Mean(pdf), t.sqrt(Variance(pdf)), s);
  }

  lemma StraddlesMirror(a: Vec)
    ensures Straddles(NegReversed(a)) == Straddles(a)
  {
    var b := NegReversed(a);
    assert forall i | 0 <= i < 5 :: b[i] == -a[4 - i];
    assert forall i | 0 <= i < 5 :: a[i] == -b[4 - i];
  }

  lemma DenMirror(a: real, x: real)
    ensures Den(-a, -x) == Den(a, x)
  {
  }

  lemma TermMirror(p: real, a: real, x: real)
    requires Den(a, x) > 0.0
    ensures Den(-a, -x) > 0.0 && Term(p, -a, -x) == -Term(p, a, x)
  {
    DenMirror(a, x);
    assert p * -a == -(p * a);
    NegQuotient(p * a, p * -a, Den(a, x));
  }

  lemma DomainMirror(a: Vec, x: real)
    requires InDomain(a, x)
    ensures InDomain(NegReversed(a), -x)
  {
    forall i | 0 <= i < 5 ensures Den(NegReversed(a)[i], -x) > 0.0 {
      DenMirror(a[4 - i], x);
    }
  }

  lemma SumNegReversed(v: Vec)
    ensures Sum(NegReversed(v)) == -Sum(v)
  {
    SumFive(v);
    SumFive(NegReversed(v));
  }

  lemma FMirror(a: Vec, p: Vec, x: real)
    requires InDomain(a, x)
    ensures InDomain(NegReversed(a), -x)
    ensures F(NegReversed(a), Reversed(p), -x) == -F(a, p, x)
  {
    DomainMirror(a, x);
    var here, there := Terms(a, p, x), Terms(NegReversed(a), Reversed(p), -x);
    forall i | 0 <= i < 5 ensures there[i] == NegReversed(here)[i] {
      TermMirror(p[4 - i], a[4 - i], x);
    }
    assert there == NegReversed(here);
    SumNegReversed(here);
  }

  lemma OneSidedMirror(a: Vec)
    requires OneSided(a)
    ensures OneSided(NegReversed(a))
  {
    var b := NegReversed(a);
    assert forall i | 0 <= i < 5 :: b[i] == -a[4 - i];
  }

  /** The root's mirror image is the root of the mirrored equation, and by uniqueness the one found. */
  lemma RootMirror(t: Tools, a: Vec, p: Vec, q: Vec)
    requires FindsRoots(t, p) && FindsRoots(t, q) && q == Reversed(p)
    requires Straddles(a) && OneSided(a) && Distribution(p)
    ensures Distribution(q) && Straddles(NegReversed(a))
    ensures t.solve(NegReversed(a), q) == -t.solve(a, p)
  {
    StraddlesMirror(a);
    OneSidedMirror(a);
    SumReversed(p);
    var b, x := NegReversed(a), t.solve(a, p);
    FMirror(a, p, x);
    assert IsRoot(b, q, -x);
    assert IsRoot(b, q, t.solve(b, q));
    SomeSide(b);
    UniqueRoot(b, q, -x, t.solve(b, q));
  }

  lemma SomeSide(a: Vec)
    requires Straddles(a)
    ensures SomeNonzero(a)
  {
    var i :| 0 <= i < 5 && a[i] > 0.0;
  }

  lemma TiltMirror(a: Vec, p: Vec, x: real)
    requires InDomain(a, x)
    ensures InDomain(NegReversed(a), -x)
    ensures Tilt(NegReversed(a), Reversed(p), -x) == Reversed(Tilt(a, p, x))
  {
    DomainMirror(a, x);
    forall i | 0 <= i < 5 ensures Tilt(NegReversed(a), Reversed(p), -x)[i] == Reversed(Tilt(a, p, x))[i] {
      DenMirror(a[4 - i], x);
    }
  }

  // ---------------------------------------------------------------------------
  // The loop
  // ---------------------------------------------------------------------------

  function ReversedOption(v: Option<Vec>): Option<Vec> {
    match v case None => None case Some(x) => Some(Reversed(x))
  }

  lemma ReversedDistribution(p: Vec)
    requires Distribution(p)
    ensures Distribution(Reversed(p))
  {
    SumReversed(p);
  }

  lemma StepMirror(t: Tools, hat: Vec, s: real, pdf: Vec, flipped: Vec, u: real, rpdf: Vec)
    requires Sound(t) && FindsRoots(t, hat) && FindsRoots(t, flipped) && Distribution(hat) && Distribution(pdf)
    requires flipped == Reversed(hat) && u == -s && rpdf == Reversed(pdf)
    ensures Distribution(flipped) && Distribution(rpdf)
    ensures Step(t, flipped, u, rpdf) == ReversedOption(Step(t, hat, s, pdf))
  {
    ReversedDistribution(hat);
    ReversedDistribution(pdf);
    LinearisedMirror(t, s, pdf);
    var a := Linearised(t, s, pdf);
    StraddlesMirror(a);
    if Straddles(a) {
      LinearisedIsOneSided(t, s, pdf);
      RootMirror(t, a, hat, flipped);
      TiltMirror(a, hat, t.solve(a, hat));
    }
  }

  lemma CloseMirror(u: Vec, v: Vec)
    ensures Close(Reversed(u), Reversed(v)) == Close(u, v)
  {
    var ru, rv := Reversed(u), Reversed(v);
    assert forall i | 0 <= i < 5 :: ru[4 - i] == u[i] && rv[4 - i] == v[i];
    if Close(ru, rv) {
      forall i | 0 <= i < 5 ensures Abs(u[i] - v[i]) < TOLERANCE {
        assert Abs(ru[4 - i] - rv[4 - i]) < TOLERANCE;
      }
    }
  }

  lemma {:induction false} IterateMirror(t: Tools, hat: Vec, s: real, pdf: Vec, n: nat, flipped: Vec, u: real, rpdf: Vec)
    requires Sound(t) && FindsRoots(t, hat) && FindsRoots(t, flipped) && Distribution(hat) && Distribution(pdf)
    requires flipped == Reversed(hat) && u == -s && rpdf == Reversed(pdf)
    ensures Distribution(flipped) && Distribution(rpdf)
    ensures Iterate(t, flipped, u, rpdf, n) == ReversedOption(Iterate(t, hat, s, pdf, n))
    decreases n
  {
    ReversedDistribution(hat);
    ReversedDistribution(pdf);
    if n > 0 {
      StepMirror(t, hat, s, pdf, flipped, u, rpdf);
      var next, mirrored := Step(t, hat, s, pdf), Step(t, flipped, u, rpdf);
      if next.Some? {
        StepIsExact(t, hat, s, pdf, next.value);
        CloseMirror(pdf, next.value);
        IterateMirror(t, hat, s, next.value, n - 1, flipped, u, mirrored.value);
      }
    }
  }

  lemma MleMirror(t: Tools, hat: Vec, s: real, flipped: Vec, u: real) returns (here: Option<Vec>, there: Option<Vec>)
    requires Sound(t) && FindsRoots(t, hat) && FindsRoots(t, flipped)
    requires Distribution(hat) && flipped == Reversed(hat) && u == -s
    ensures Distribution(flipped)
    ensures here == MleTValue(t, hat, s) && there == MleTValue(t, flipped, u)
    ensures there == ReversedOption(here)
  {
    UniformIsDistribution();
    IterateMirror(t, hat, s, UNIFORM, Passes(), flipped, u, UNIFORM);
    here, there := MleTValue(t, hat, s), MleTValue(t, flipped, u);
  }

  // ---------------------------------------------------------------------------
  // The ratio
  // ---------------------------------------------------------------------------

  function Flipped(counts: Counts): Counts { [counts[4], counts[3], counts[2], counts[1], counts[0]] }

  lemma MassMirror(counts: Counts)
    ensures Mass(Flipped(counts)) == Mass(counts)
  {
    assert Weights(Flipped(counts)) == Reversed(Weights(counts));
    SumReversed(Weights(counts));
  }

  lemma PdfMirror(counts: Counts)
    ensures ToPdf(Flipped(counts)) == Reversed(ToPdf(counts))
  {
    MassMirror(counts);
    MassPositive(counts);
    forall i | 0 <= i < 5 ensures Weights(Flipped(counts))[i] == Weights(counts)[4 - i] {
    }
  }

  lemma RatioMirror(ln: real -> real, p: Vec, p1: Vec, p0: Vec)
    ensures Sum(LogRatios(ln, Reversed(p), Reversed(p0), Reversed(p1))) == -Sum(LogRatios(ln, p, p1, p0))
  {
    var here, there := LogRatios(ln, p, p1, p0), LogRatios(ln, Reversed(p), Reversed(p0), Reversed(p1));
    forall i | 0 <= i < 5 ensures there[i] == NegReversed(here)[i] {
      NegProduct(p[4 - i], ln(p0[4 - i]) - ln(p1[4 - i]), ln(p1[4 - i]) - ln(p0[4 - i]));
    }
    assert there == NegReversed(here);
    SumNegReversed(here);
  }

  lemma NegProduct(p: real, x: real, y: real)
    requires x == -y
    ensures p * x == -(p * y)
  {
  }

  lemma TValueMirror(t: Tools, elo: real, u: real)
    requires u == -elo
    ensures TValue(t, u) == -TValue(t, elo)
  {
    NegQuotient(elo, u, NELO_DIVIDED_BY_NT);
    NegProduct(t.sqrt(2.0), u / NELO_DIVIDED_BY_NT, elo / NELO_DIVIDED_BY_NT);
  }

  function Negated(x: Option<real>): Option<real> {
    match x case None => None case Some(v) => Some(-v)
  }

  lemma OverAllMirror(mass: real, x: real, y: real)
    requires x == -y
    ensures OverAll(mass, x) == -OverAll(mass, y)
  {
    NegProduct(mass, x, y);
  }

  lemma CompareMirror(ln: real -> real, mass: real, pdf: Vec, p0: Option<Vec>, p1: Option<Vec>,
                      flipped: Vec, q0: Option<Vec>, q1: Option<Vec>)
    requires flipped == Reversed(pdf) && q0 == ReversedOption(p1) && q1 == ReversedOption(p0)
    ensures Compare(ln, mass, flipped, q0, q1) == Negated(Compare(ln, mass, pdf, p0, p1))
  {
    if p0.Some? && p1.Some? {
      RatioMirror(ln, pdf, p1.value, p0.value);
      OverAllMirror(mass, Sum(LogRatios(ln, flipped, q1.value, q0.value)), Sum(LogRatios(ln, pdf, p1.value, p0.value)));
    }
  }

  lemma LlrOfPdfMirror(t: Tools, mass: real, pdf: Vec, t0: real, t1: real, flipped: Vec, u0: real, u1: real)
    requires Sound(t) && FindsRoots(t, pdf) && FindsRoots(t, flipped)
    requires Distribution(pdf) && flipped == Reversed(pdf) && u0 == -t1 && u1 == -t0
    ensures Distribution(flipped)
    ensures LlrOfPdf(t, mass, flipped, u0, u1) == Negated(LlrOfPdf(t, mass, pdf, t0, t1))
  {
    var p0, q1 := MleMirror(t, pdf, t0, flipped, u1);
    var p1, q0 := MleMirror(t, pdf, t1, flipped, u0);
    CompareMirror(t.ln, mass, pdf, p0, p1, flipped, q0, q1);
  }

  lemma ModestMirror(counts: Counts)
    requires Modest(counts)
    ensures Modest(Flipped(counts))
  {
  }

  /** The LLR is mirror-antisymmetric for all hypotheses; it throws for the mirror image exactly when it
      throws for the original. */
  lemma LlrMirror(t: Tools, elo0: real, elo1: real, counts: Counts, u0: real, u1: real, flipped: Counts)
    returns (here: Option<real>, there: Option<real>)
    requires Sound(t) && IsSolver(t.solve) && Modest(counts) && u0 == -elo1 && u1 == -elo0 && flipped == Flipped(counts)
    ensures here == LlrNormalized(t, elo0, elo1, counts) && there == LlrNormalized(t, u0, u1, flipped)
    ensures there == Negated(here)
  {
    here, there := LlrNormalized(t, elo0, elo1, counts), LlrNormalized(t, u0, u1, flipped);
    if Pairs(counts) != 0 {
      MassMirror(counts);
      PdfMirror(counts);
      ModestMirror(counts);
      ModestFindsRoots(t, counts);
      ModestFindsRoots(t, flipped);
      TValueMirror(t, elo0, u1);
      TValueMirror(t, elo1, u0);
      LlrOfPdfMirror(t, Mass(counts), ToPdf(counts), TValue(t, elo0), TValue(t, elo1),
                     ToPdf(flipped), TValue(t, u0), TValue(t, u1));
    }
  }

  // ---------------------------------------------------------------------------
  // The verdict
  // ---------------------------------------------------------------------------

  /** sprt_bounds */
  function SprtBounds(ln: real -> real, alpha: real, beta: real): Bounds
    requires 0.0 < alpha < 1.0 && 0.0 < beta < 1.0
  {
    Bounds(ln(beta / (1.0 - alpha)), ln((1.0 - beta) / alpha))
  }

  lemma LnOfInverse(ln: real -> real, x: real, y: real)
    requires IsLn(ln) && x > 0.0 && y > 0.0
    ensures ln(x / y) == -ln(y / x)
  {
    assert ln(x / y) == ln(x) - ln(y);
    assert ln(y / x) == ln(y) - ln(x);
  }

  /** Exchanging the two error rates mirrors the bounds. */
  lemma BoundsMirror(ln: real -> real, alpha: real, beta: real)
    requires IsLn(ln) && 0.0 < alpha < 1.0 && 0.0 < beta < 1.0
    ensures SprtBounds(ln, beta, alpha) == Bounds(-SprtBounds(ln, alpha, beta).upper, -SprtBounds(ln, alpha, beta).lower)
  {
    LnOfInverse(ln, alpha, 1.0 - beta);
    LnOfInverse(ln, beta, 1.0 - alpha);
  }

  lemma BelowOne(q: real, x: real, y: real)
    requires q * y == x && 0.0 < x < y
    ensures q < 1.0
  {
    if q >= 1.0 {
      MulOrder(y, 1.0, q);
    }
  }

  lemma LnIncreases(ln: real -> real, x: real, y: real)
    requires IsLn(ln) && 0.0 < x < y
    ensures ln(x) < ln(y)
  {
    RatioLn(ln, x, y);
    RatioPositive(x, y);
    BelowOne(x / y, x, y);
  }

  lemma CrossLess(a: real, b: real, c: real, d: real)
    requires b > 0.0 && d > 0.0 && a * d < c * b
    ensures a / b < c / d
  {
    var x, y := a / b, c / d;
    assert x * b == a && y * d == c;
    var bd := b * d;
    MulPositive(b, d);
    assert bd * y == c * b && bd * x == a * d;
    if y <= x {
      MulOrder(bd, y, x);
    }
  }

  lemma CrossProducts(alpha: real, beta: real, na: real, nb: real)
    requires na == 1.0 - alpha && nb == 1.0 - beta
    ensures nb * na - beta * alpha == 1.0 - (alpha + beta)
  {
  }

  lemma RatesInOrder(ln: real -> real, alpha: real, beta: real, na: real, nb: real)
    requires IsLn(ln) && 0.0 < alpha < 1.0 && 0.0 < beta < 1.0 && alpha + beta < 1.0
    requires na == 1.0 - alpha && nb == 1.0 - beta
    ensures ln(beta / na) < ln(nb / alpha)
  {
    CrossProducts(alpha, beta, na, nb);
    CrossLess(beta, na, nb, alpha);
    RatioPositive(beta, na);
    LnIncreases(ln, beta / na, nb / alpha);
  }

  lemma RatesOutOfOrder(ln: real -> real, alpha: real, beta: real, na: real, nb: real)
    requires IsLn(ln) && 0.0 < alpha < 1.0 && 0.0 < beta < 1.0 && alpha + beta > 1.0
    requires na == 1.0 - alpha && nb == 1.0 - beta
    ensures ln(nb / alpha) < ln(beta / na)
  {
    CrossProducts(alpha, beta, na, nb);
    CrossLess(nb, alpha, beta, na);
    RatioPositive(nb, alpha);
    LnIncreases(ln, nb / alpha, beta / na);
  }

  lemma SameOverSame(d: real, e: real)
    requires d > 0.0 && d == e
    ensures d / e == 1.0
  {
  }

  /** The lower bound is below the upper exactly when the error rates leave room. */
  lemma BoundsInOrder(ln: real -> real, alpha: real, beta: real)
    requires IsLn(ln) && 0.0 < alpha < 1.0 && 0.0 < beta < 1.0
    ensures SprtBounds(ln, alpha, beta).lower < SprtBounds(ln, alpha, beta).upper <==> alpha + beta < 1.0
  {
    if alpha + beta < 1.0 {
      RatesInOrder(ln, alpha, beta, 1.0 - alpha, 1.0 - beta);
    } else if alpha + beta > 1.0 {
      RatesOutOfOrder(ln, alpha, beta, 1.0 - alpha, 1.0 - beta);
    } else {
      SameOverSame(beta, 1.0 - alpha);
      SameOverSame(1.0 - beta, alpha);
    }
  }

  /** Error rates that leave no room decide every test by its first pair. */
  lemma SomeLlrContinues(ln: real -> real, alpha: real, beta: real)
    requires IsLn(ln) && 0.0 < alpha < 1.0 && 0.0 < beta < 1.0
    ensures (exists llr: real :: SprtDecide(llr, SprtBounds(ln, alpha, beta)) == Continue) <==> alpha + beta < 1.0
  {
    var b := SprtBounds(ln, alpha, beta);
    BoundsInOrder(ln, alpha, beta);
    if alpha + beta < 1.0 {
      assert SprtDecide(0.5 * (b.lower + b.upper), b) == Continue;
    }
  }

  function Opposite(d: Decision): Decision {
    match d case Continue => Continue case AcceptH1 => AcceptH0 case AcceptH0 => AcceptH1
  }

  /** The decision is mirrored unless the LLR has reached both bounds at once. */
  lemma DecideMirror(llr: real, bounds: Bounds, mirrored: Bounds)
    requires mirrored == Bounds(-bounds.upper, -bounds.lower)
    ensures SprtDecide(-llr, mirrored) == Opposite(SprtDecide(llr, bounds)) <==> !(bounds.upper <= llr <= bounds.lower)
  {
  }

  /** The server's configuration with these numerics plugged in. */
  ghost function Gsprt(t: Tools, leaseTtlMinSeconds: real, maxAttempts: nat): Config
    requires Sound(t)
  {
    Config(leaseTtlMinSeconds, maxAttempts,
           (elo0, elo1, penta) => if |penta| == 5 then LlrNormalized(t, elo0, elo1, penta) else None,
           (alpha, beta) => if 0.0 < alpha < 1.0 && 0.0 < beta < 1.0 then SprtBounds(t.ln, alpha, beta) else Bounds(0.0, 0.0))
  }

  lemma FlippedTotal(penta: Counts)
    ensures Total(Flipped(penta)) == Total(penta) == Pairs(penta)
  {
    TotalOfFive(penta);
    TotalOfFive(Flipped(penta));
  }

  /** Entered the other way round (elo0 and elo1 exchanged and negated, the error rates exchanged),
      with the same games, the test throws just when it does here, and is otherwise decided the other
      way round. */
  ghost predicate OppositeViews(cfg: Config, elo0: real, elo1: real, alpha: real, beta: real, penta: Counts,
                                wins: nat, draws: nat, losses: nat, u0: real, u1: real)
  {
    var here := StatsFrom(cfg, Sprt(elo0, elo1, alpha, beta), penta, wins, draws, losses);
    var there := StatsFrom(cfg, Sprt(u0, u1, beta, alpha), Flipped(penta), losses, draws, wins);
    && (here.None? <==> there.None?)
    && (here.Some? ==> Decide(cfg, Sprt(u0, u1, beta, alpha), there.value)
                       == Opposite(Decide(cfg, Sprt(elo0, elo1, alpha, beta), here.value)))
  }

  /** The LLR has reached both bounds at once; sprt_decide asks for the upper one first. */
  predicate ReachesBoth(cfg: Config, elo0: real, elo1: real, alpha: real, beta: real, penta: Counts) {
    && Total(penta) > 0 && cfg.llr(elo0, elo1, penta).Some?
    && cfg.bounds(alpha, beta).upper <= cfg.llr(elo0, elo1, penta).value <= cfg.bounds(alpha, beta).lower
  }

  /** The two views of one test, for any numerics that mirror it. */
  lemma ConfigMirror(cfg: Config, elo0: real, elo1: real, alpha: real, beta: real, penta: Counts,
                     wins: nat, draws: nat, losses: nat, u0: real, u1: real)
    requires cfg.llr(u0, u1, Flipped(penta)) == Negated(cfg.llr(elo0, elo1, penta))
    requires cfg.bounds(beta, alpha) == Bounds(-cfg.bounds(alpha, beta).upper, -cfg.bounds(alpha, beta).lower)
    ensures OppositeViews(cfg, elo0, elo1, alpha, beta, penta, wins, draws, losses, u0, u1)
       <==> !ReachesBoth(cfg, elo0, elo1, alpha, beta, penta)
  {
    FlippedTotal(penta);
    var llr := cfg.llr(elo0, elo1, penta);
    if llr.Some? {
      DecideMirror(llr.value, cfg.bounds(alpha, beta), cfg.bounds(beta, alpha));
    }
  }

  lemma GsprtLlr(t: Tools, ttl: real, maxAttempts: nat, elo0: real, elo1: real, penta: Counts, u0: real, u1: real)
    requires Sound(t) && IsSolver(t.solve) && Modest(penta) && u0 == -elo1 && u1 == -elo0
    ensures var cfg := Gsprt(t, ttl, maxAttempts);
            cfg.llr(u0, u1, Flipped(penta)) == Negated(cfg.llr(elo0, elo1, penta))
  {
    var here, there := LlrMirror(t, elo0, elo1, penta, u0, u1, Flipped(penta));
  }

  lemma GsprtBounds(t: Tools, ttl: real, maxAttempts: nat, alpha: real, beta: real)
    requires Sound(t) && IsLn(t.ln) && 0.0 < alpha < 1.0 && 0.0 < beta < 1.0
    ensures var cfg := Gsprt(t, ttl, maxAttempts);
            && cfg.bounds(beta, alpha) == Bounds(-cfg.bounds(alpha, beta).upper, -cfg.bounds(alpha, beta).lower)
            && (cfg.bounds(alpha, beta).lower < cfg.bounds(alpha, beta).upper <==> alpha + beta < 1.0)
  {
    BoundsMirror(t.ln, alpha, beta);
    BoundsInOrder(t.ln, alpha, beta);
  }

  /** What the server decides is the same from either side, for all the error rates parse_test_spec
      admits, unless the LLR has reached both bounds; error rates that leave room rule that out. */
  lemma TestMirror(t: Tools, ttl: real, maxAttempts: nat, elo0: real, elo1: real, alpha: real, beta: real,
                   penta: Counts, wins: nat, draws: nat, losses: nat, u0: real, u1: real)
    requires Sound(t) && IsSolver(t.solve) && Modest(penta) && IsLn(t.ln) && 0.0 < alpha < 1.0 && 0.0 < beta < 1.0
    requires u0 == -elo1 && u1 == -elo0
    ensures var cfg := Gsprt(t, ttl, maxAttempts);
            && (OppositeViews(cfg, elo0, elo1, alpha, beta, penta, wins, draws, losses, u0, u1)
                <==> !ReachesBoth(cfg, elo0, elo1, alpha, beta, penta))
            && (alpha + beta < 1.0 ==> OppositeViews(cfg, elo0, elo1, alpha, beta, penta, wins, draws, losses, u0, u1))
  {
    GsprtLlr(t, ttl, maxAttempts, elo0, elo1, penta, u0, u1);
    GsprtBounds(t, ttl, maxAttempts, alpha, beta);
    ConfigMirror(Gsprt(t, ttl, maxAttempts), elo0, elo1, alpha, beta, penta, wins, draws, losses, u0, u1);
  }

  lemma AtMostOne(x: real, y: real)
    requires 0.0 < x <= y
    ensures 0.0 < x / y <= 1.0
  {
    RatioPositive(x, y);
  }

  lemma UpperNotPositive(ln: real -> real, alpha: real, beta: real)
    requires IsLn(ln) && 0.0 < alpha < 1.0 && 0.0 < beta < 1.0 && alpha + beta >= 1.0
    ensures SprtBounds(ln, alpha, beta).upper <= 0.0
  {
    AtMostOne(1.0 - beta, alpha);
    assert ln((1.0 - beta) / alpha) <= (1.0 - beta) / alpha - 1.0;
  }

  /** Error rates that leave no room put zero past both bounds. */
  lemma ZeroPastBoth(ln: real -> real, alpha: real, beta: real)
    requires IsLn(ln) && 0.0 < alpha < 1.0 && 0.0 < beta < 1.0 && alpha + beta >= 1.0
    ensures SprtBounds(ln, alpha, beta).upper <= 0.0 <= SprtBounds(ln, alpha, beta).lower
  {
    UpperNotPositive(ln, alpha, beta);
    UpperNotPositive(ln, beta, alpha);
    BoundsMirror(ln, alpha, beta);
  }

  lemma SymmetricLlr(cfg: Config, elo0: real, elo1: real, penta: Counts, flipped: Counts)
    requires flipped == penta && cfg.llr(elo0, elo1, penta).Some?
    requires cfg.llr(elo0, elo1, flipped) == Negated(cfg.llr(elo0, elo1, penta))
    ensures cfg.llr(elo0, elo1, penta) == Some(0.0)
  {
  }

  /** A test with symmetric hypotheses and symmetric results. */
  predicate Symmetric(elo0: real, elo1: real, penta: Counts) {
    elo0 == -elo1 && Flipped(penta) == penta && Total(penta) > 0 && Modest(penta) && !TooFar(elo0)
  }

  lemma SymmetricIsZero(t: Tools, ttl: real, maxAttempts: nat, cfg: Config, elo0: real, elo1: real, penta: Counts)
    requires Sound(t) && IsSolver(t.solve) && cfg == Gsprt(t, ttl, maxAttempts) && Symmetric(elo0, elo1, penta)
    ensures cfg.llr(elo0, elo1, penta) == Some(0.0)
  {
    FlippedTotal(penta);
    LlrThrows(t, elo0, elo1, penta);
    GsprtLlr(t, ttl, maxAttempts, elo0, elo1, penta, elo0, elo1);
    SymmetricLlr(cfg, elo0, elo1, penta, Flipped(penta));
  }

  /** The decision on a test whose LLR is zero. */
  lemma ZeroDecides(cfg: Config, elo0: real, elo1: real, alpha: real, beta: real, penta: Counts, wins: nat, draws: nat, losses: nat)
    requires Total(penta) > 0 && cfg.llr(elo0, elo1, penta) == Some(0.0) && cfg.bounds(alpha, beta).upper <= 0.0
    ensures StatsFrom(cfg, Sprt(elo0, elo1, alpha, beta), penta, wins, draws, losses).Some?
    ensures Decide(cfg, Sprt(elo0, elo1, alpha, beta),
                   StatsFrom(cfg, Sprt(elo0, elo1, alpha, beta), penta, wins, draws, losses).value) == AcceptH1
  {
  }

  /** A test with symmetric hypotheses and results has LLR zero. With error rates that leave no room
      both sides are accepted, so the server does not decide it the same way from either side; with
      others it does. */
  lemma BothSidesAccepted(t: Tools, ttl: real, maxAttempts: nat, cfg: Config, elo0: real, elo1: real,
                          alpha: real, beta: real, penta: Counts, wins: nat, draws: nat, losses: nat)
    requires Sound(t) && IsSolver(t.solve) && IsLn(t.ln) && cfg == Gsprt(t, ttl, maxAttempts)
    requires 0.0 < alpha < 1.0 && 0.0 < beta < 1.0 && Symmetric(elo0, elo1, penta)
    ensures cfg.llr(elo0, elo1, penta) == Some(0.0)
    ensures var here := StatsFrom(cfg, Sprt(elo0, elo1, alpha, beta), penta, wins, draws, losses);
            var there := StatsFrom(cfg, Sprt(elo0, elo1, beta, alpha), Flipped(penta), losses, draws, wins);
            && here.Some? && there.Some?
            && (alpha + beta >= 1.0 ==>
                  && Decide(cfg, Sprt(elo0, elo1, alpha, beta), here.value) == AcceptH1
                  && Decide(cfg, Sprt(elo0, elo1, beta, alpha), there.value) == AcceptH1)
    ensures OppositeViews(cfg, elo0, elo1, alpha, beta, penta, wins, draws, losses, elo0, elo1) <==> alpha + beta < 1.0
  {
    SymmetricIsZero(t, ttl, maxAttempts, cfg, elo0, elo1, penta);
    if alpha + beta >= 1.0 {
      ZeroPastBoth(t.ln, alpha, beta);
      ZeroPastBoth(t.ln, beta, alpha);
      ZeroDecides(cfg, elo0, elo1, alpha, beta, penta, wins, draws, losses);
      ZeroDecides(cfg, elo0, elo1, beta, alpha, penta, losses, draws, wins);
    } else {
      TestMirror(t, ttl, maxAttempts, elo0, elo1, alpha, beta, penta, wins, draws, losses, elo0, elo1);
    }
  }

  /** Every test with these error rates, with no category nearly empty, is decided the same from either side. */
  ghost predicate MirrorsAll(cfg: Config, alpha: real, beta: real) {
    forall elo0, elo1, penta: Counts, wins, draws, losses, u0, u1 | Modest(penta) && u0 == -elo1 && u1 == -elo0 ::
      OppositeViews(cfg, elo0, elo1, alpha, beta, penta, wins, draws, losses, u0, u1)
  }

  lemma OnePair()
    ensures Symmetric(-1.0, 1.0, [0, 0, 1, 0, 0])
  {
    var penta: Counts := [0, 0, 1, 0, 0];
    TotalOfFive(penta);
    assert Flipped(penta) == penta;
  }

  /** Exactly the error rates that leave room treat both sides alike in every test. */
  lemma RatesMirror(t: Tools, ttl: real, maxAttempts: nat, cfg: Config, alpha: real, beta: real)
    requires Sound(t) && IsSolver(t.solve) && IsLn(t.ln) && cfg == Gsprt(t, ttl, maxAttempts)
    requires 0.0 < alpha < 1.0 && 0.0 < beta < 1.0
    ensures MirrorsAll(cfg, alpha, beta) <==> alpha + beta < 1.0
  {
    if alpha + beta < 1.0 {
      forall elo0: real, elo1: real, penta: Counts, wins: nat, draws: nat, losses: nat, u0: real, u1: real | Modest(penta) && u0 == -elo1 && u1 == -elo0
        ensures OppositeViews(cfg, elo0, elo1, alpha, beta, penta, wins, draws, losses, u0, u1)
      {
        TestMirror(t, ttl, maxAttempts, elo0, elo1, alpha, beta, penta, wins, draws, losses, u0, u1);
      }
    } else {
      OnePair();
      var minus := -1.0;
      BothSidesAccepted(t, ttl, maxAttempts, cfg, minus, 1.0, alpha, beta, [0, 0, 1, 0, 0], 0, 2, 0);
    }
  }
}
