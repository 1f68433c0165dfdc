/** A fit as the run of its passes (common/gsprt.cpp, mle_t_value): where it starts, how often it passes, when
    it stops, and what it has reached when it stands still. In exact reals. */
module FitRuns {
  import opened Schema
  import opened Vectors
  import opened Mle
  import opened Llr
  import opened LlrDomain

  /** Each distribution is one pass from the one before it. */
  ghost predicate ArePasses(t: Tools, hat: Vec, s: real, run: seq<Vec>)
    requires Sound(t) && Distribution(hat)
  {
    forall i | 0 <= i < |run| - 1 :: Positive(run[i]) && Step(t, hat, s, run[i]) == Some(run[i + 1])
  }

  /** No category has moved by a thousand-millionth or more. */
  predicate Still(u: Vec, v: Vec) { forall i | 0 <= i < 5 :: -0.000000001 < v[i] - u[i] < 0.000000001 }

  lemma StillIff(u: Vec, v: Vec)
    ensures Close(u, v) <==> Still(u, v)
  {
    forall i | 0 <= i < 5 ensures Abs(u[i] - v[i]) < TOLERANCE <==> -0.000000001 < v[i] - u[i] < 0.000000001 {
    }
  }

  /** The passes of a fit that succeeded: only the last may stand still, and if none does there are n of them. */
  ghost predicate IsFit(t: Tools, hat: Vec, s: real, n: nat, run: seq<Vec>)
    requires Sound(t) && Distribution(hat)
  {
    && 1 <= |run| <= n + 1 && ArePasses(t, hat, s, run)
    && (forall i | 0 <= i < |run| - 2 :: !Still(run[i], run[i + 1]))
    && (|run| == n + 1 || (|run| >= 2 && Still(run[|run| - 2], run[|run| - 1])))
  }

  /** The passes of a fit that threw, up to the one that did. */
  ghost predicate IsThrow(t: Tools, hat: Vec, s: real, n: nat, run: seq<Vec>)
    requires Sound(t) && Distribution(hat)
  {
    && 1 <= |run| <= n && ArePasses(t, hat, s, run)
    && (forall i | 0 <= i < |run| - 1 :: !Still(run[i], run[i + 1]))
    && Positive(run[|run| - 1]) && Step(t, hat, s, run[|run| - 1]).None?
  }

  lemma PassBefore(t: Tools, hat: Vec, s: real, n: nat, pdf: Vec, rest: seq<Vec>, run: seq<Vec>)
    requires Sound(t) && Distribution(hat) && rest != [] && run == [pdf] + rest
    requires Positive(pdf) && Step(t, hat, s, pdf) == Some(rest[0]) && !Still(pdf, rest[0])
    ensures IsFit(t, hat, s, n, rest) ==> IsFit(t, hat, s, n + 1, run)
    ensures IsThrow(t, hat, s, n, rest) ==> IsThrow(t, hat, s, n + 1, run)
  {
    assert run[0] == pdf && forall i | 1 <= i < |run| :: run[i] == rest[i - 1];
  }

  lemma LastPassRun(t: Tools, hat: Vec, s: real, n: nat, pdf: Vec, next: Vec)
    requires Sound(t) && Distribution(hat) && n > 0
    requires Positive(pdf) && Step(t, hat, s, pdf) == Some(next) && Still(pdf, next)
    ensures IsFit(t, hat, s, n, [pdf, next])
  {
  }

  lemma ThrowRun(t: Tools, hat: Vec, s: real, n: nat, pdf: Vec)
    requires Sound(t) && Distribution(hat) && n > 0 && Positive(pdf) && Step(t, hat, s, pdf).None?
    ensures IsThrow(t, hat, s, n, [pdf])
  {
  }

  /** The run of the passes that lead from pdf to the result. */
  ghost predicate Explains(t: Tools, hat: Vec, s: real, pdf: Vec, n: nat, result: Option<Vec>, run: seq<Vec>)
    requires Sound(t) && Distribution(hat)
  {
    && run != [] && run[0] == pdf
    && match result
       case Some(q) => IsFit(t, hat, s, n, run) && run[|run| - 1] == q
       case None => IsThrow(t, hat, s, n, run)
  }

  lemma OnePassMore(t: Tools, hat: Vec, s: real, n: nat, pdf: Vec, next: Vec, result: Option<Vec>, rest: seq<Vec>)
    requires Sound(t) && Distribution(hat) && Positive(pdf) && Step(t, hat, s, pdf) == Some(next) && !Still(pdf, next)
    requires Explains(t, hat, s, next, n, result, rest)
    ensures Explains(t, hat, s, pdf, n + 1, result, [pdf] + rest)
  {
    PassBefore(t, hat, s, n, pdf, rest, [pdf] + rest);
  }

  lemma {:induction false} IterateRuns(t: Tools, hat: Vec, s: real, pdf: Vec, n: nat) returns (run: seq<Vec>)
    requires Sound(t) && Distribution(hat) && Positive(pdf)
    ensures Explains(t, hat, s, pdf, n, Iterate(t, hat, s, pdf, n), run)
    decreases n
  {
    run := [pdf];
    if n > 0 {
      var next := Step(t, hat, s, pdf);
      IterateOnce(t, hat, s, pdf, n, next);
      if next.None? {
        ThrowRun(t, hat, s, n, pdf);
      } else {
        StillIff(pdf, next.value);
        if Still(pdf, next.value) {
          run := [pdf, next.value];
          LastPassRun(t, hat, s, n, pdf, next.value);
        } else {
          var rest := IterateRuns(t, hat, s, next.value, n - 1);
          run := [pdf] + rest;
          OnePassMore(t, hat, s, n - 1, pdf, next.value, Iterate(t, hat, s, next.value, n - 1), rest);
        }
      }
    }
  }

  /** mle_t_value makes at most ten passes from the uniform distribution on, and stops before that exactly when
      a pass moves no category by a thousand-millionth or throws. */
  lemma FitIsRun(t: Tools, hat: Vec, s: real) returns (run: seq<Vec>)
    requires Sound(t) && Distribution(hat)
    ensures run != [] && run[0] == [0.2, 0.2, 0.2, 0.2, 0.2]
    ensures match MleTValue(t, hat, s)
            case Some(q) => IsFit(t, hat, s, 10, run) && run[|run| - 1] == q
            case None => IsThrow(t, hat, s, 10, run)
  {
    UniformIsDistribution();
    run := IterateRuns(t, hat, s, UNIFORM, Passes());
  }

  /** Where a fit stands still it has the t-value it was asked for: its mean is s sigma away from one half. */
  lemma WhereAFitStandsStill(t: Tools, hat: Vec, s: real, q: Vec)
    requires Sound(t) && FindsRoots(t, hat) && Distribution(hat) && Positive(q) && Step(t, hat, s, q) == Some(q)
    ensures Distribution(q) && Variance(q) > 0.0 && Mean(q) - 0.5 == s * t.sqrt(Variance(q))
  {
    StepIsExact(t, hat, s, q, q);
    VariancePositive(q);
    OwnConstraint(q, t.sqrt(Variance(q)), s, Dot(q, Linearised(t, s, q)));
  }

  lemma OwnConstraint(q: Vec, sigma: real, s: real, dot: real)
    requires Distribution(q) && sigma > 0.0 && sigma * sigma == Variance(q)
    requires dot == Dot(q, Constraint(Mean(q), sigma, s)) && dot == 0.0
    ensures Mean(q) - 0.5 == s * sigma
  {
    OwnMean(q, sigma, s);
  }

  /** So its normalised Elo, the excess over one half in standard deviations of a single game, is the hypothesis. */
  lemma StandsAtItsElo(t: Tools, hat: Vec, elo: real, q: Vec)
    requires Sound(t) && FindsRoots(t, hat) && Distribution(hat) && Positive(q) && Step(t, hat, TValue(t, elo), q) == Some(q)
    ensures Distribution(q) && Variance(q) > 0.0
    ensures 347.43558552260146 * (Mean(q) - 0.5) == elo * t.sqrt(2.0) * t.sqrt(Variance(q))
  {
    WhereAFitStandsStill(t, hat, TValue(t, elo), q);
    InElo(t, elo, TValue(t, elo), t.sqrt(Variance(q)), Mean(q) - 0.5);
  }

  lemma InElo(t: Tools, elo: real, s: real, sigma: real, gap: real)
    requires s == TValue(t, elo) && gap == s * sigma
    ensures 347.43558552260146 * gap == elo * t.sqrt(2.0) * sigma
  {
    Scaled(elo, elo / NELO_DIVIDED_BY_NT, t.sqrt(2.0), s);
    Regrouped(347.43558552260146, s, sigma, elo * t.sqrt(2.0));
  }

  lemma Scaled(elo: real, e: real, r: real, s: real)
    requires e == elo / 347.43558552260146 && s == e * r
    ensures 347.43558552260146 * s == elo * r
  {
  }

  lemma Regrouped(c: real, s: real, sigma: real, x: real)
    requires c * s == x
    ensures c * (s * sigma) == x * sigma
  {
  }

  /** How far from zero is too far, in Elo. */
  lemma TooFarInElo(elo: real)
    ensures elo >= 231.62373 || elo <= -231.62373 ==> TooFar(elo)
    ensures -231.62372 <= elo <= 231.62372 ==> !TooFar(elo)
  {
  }
}
