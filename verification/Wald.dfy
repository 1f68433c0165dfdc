/** What the LLR and the decision on it are for: the LLR is the logarithm of the likelihood ratio of the two
    fitted distributions, and a test is decided by comparing that ratio with its error rates (common/gsprt.cpp).
    A category without pairs weighs a thousandth of a pair, so that whole numbers come from counting
    thousandths. In exact reals. */
module Wald {
  import opened Schema
  import opened Outcomes
  import opened Lifecycle
  import opened Vectors
  import opened Mle
  import opened Llr
  import opened Mirror

  // ---------------------------------------------------------------------------
  // Powers and their logarithms
  // ---------------------------------------------------------------------------

  function Power(x: real, n: nat): (r: real)
    ensures x > 0.0 ==> r > 0.0
  {
    if n == 0 then 1.0 else x * Power(x, n - 1)
  }

  lemma LnOfProduct(ln: real -> real, x: real, y: real, z: real)
    requires IsLn(ln) && x > 0.0 && y > 0.0 && z == x * y
    ensures z > 0.0 && ln(z) == ln(x) + ln(y)
  {
    MulPositive(x, y);
    SameQuotient(z / y, x, y);
    LnOfQuotient(ln, z, y, x);
  }

  lemma OneFactorMore(n: nat, l: real)
    requires n > 0
    ensures n as real * l == (n - 1) as real * l + l
  {
    assert n as real == (n - 1) as real + 1.0;
  }

  lemma {:induction false} LnOfPower(ln: real -> real, x: real, n: nat)
    requires IsLn(ln) && x > 0.0
    ensures ln(Power(x, n)) == n as real * ln(x)
    decreases n
  {
    if n == 0 {
      LnAtOne(ln);
    } else {
      LnOfPower(ln, x, n - 1);
      LnOfProduct(ln, x, Power(x, n - 1), Power(x, n));
      OneFactorMore(n, ln(x));
    }
  }

  /** The likelihood of the counts under the distribution q: the product of q_i to the n_i. */
  function LikelihoodOf(q: Vec, n: Counts): (l: real)
    ensures Positive(q) ==> l > 0.0
  {
    FivePositive(Power(q[0], n[0]), Power(q[1], n[1]), Power(q[2], n[2]), Power(q[3], n[3]), Power(q[4], n[4]));
    Power(q[0], n[0]) * Power(q[1], n[1]) * Power(q[2], n[2]) * Power(q[3], n[3]) * Power(q[4], n[4])
  }

  lemma FivePositive(a: real, b: real, c: real, d: real, e: real)
    ensures a > 0.0 && b > 0.0 && c > 0.0 && d > 0.0 && e > 0.0 ==> a * b * c * d * e > 0.0
  {
    if a > 0.0 && b > 0.0 && c > 0.0 && d > 0.0 && e > 0.0 {
      MulPositive(a, b);
      MulPositive(a * b, c);
      MulPositive(a * b * c, d);
      MulPositive(a * b * c * d, e);
    }
  }

  function Reals(n: Counts): Vec { seq(5, i requires 0 <= i < 5 => n[i] as real) }

  function LogTerms(ln: real -> real, q: Vec, n: Counts): Vec { Times(Reals(n), Logs(ln, q)) }

  lemma LnOfFive(ln: real -> real, a: real, b: real, c: real, d: real, e: real, l: real)
    requires IsLn(ln) && a > 0.0 && b > 0.0 && c > 0.0 && d > 0.0 && e > 0.0 && l == a * b * c * d * e
    ensures ln(l) == ln(a) + ln(b) + ln(c) + ln(d) + ln(e)
  {
    var ab, abc, abcd := a * b, a * b * c, a * b * c * d;
    LnOfProduct(ln, a, b, ab);
    LnOfProduct(ln, ab, c, abc);
    LnOfProduct(ln, abc, d, abcd);
    LnOfProduct(ln, abcd, e, l);
  }

  lemma SumOfLogs(ln: real -> real, q: Vec, n: Counts, logs: Vec)
    requires forall i | 0 <= i < 5 :: logs[i] == n[i] as real * ln(q[i])
    ensures Sum(LogTerms(ln, q, n)) == logs[0] + logs[1] + logs[2] + logs[3] + logs[4]
  {
    SumFive(LogTerms(ln, q, n));
  }

  lemma LogsOfPowers(ln: real -> real, q: Vec, n: Counts) returns (logs: Vec)
    requires IsLn(ln) && Positive(q)
    ensures forall i | 0 <= i < 5 :: logs[i] == ln(Power(q[i], n[i])) && logs[i] == n[i] as real * ln(q[i])
  {
    forall i | 0 <= i < 5 ensures ln(Power(q[i], n[i])) == n[i] as real * ln(q[i]) {
      LnOfPower(ln, q[i], n[i]);
    }
    logs := seq(5, i requires 0 <= i < 5 => ln(Power(q[i], n[i])));
  }

  lemma LnOfLikelihood(ln: real -> real, q: Vec, n: Counts)
    requires IsLn(ln) && Positive(q)
    ensures ln(LikelihoodOf(q, n)) == Sum(LogTerms(ln, q, n))
  {
    var logs := LogsOfPowers(ln, q, n);
    SumOfLogs(ln, q, n, logs);
    LnOfFive(ln, Power(q[0], n[0]), Power(q[1], n[1]), Power(q[2], n[2]), Power(q[3], n[3]), Power(q[4], n[4]),
             LikelihoodOf(q, n));
  }

  // ---------------------------------------------------------------------------
  // The LLR
  // ---------------------------------------------------------------------------

  /** n counts what counts counts, k to the pair. */
  predicate CountsIn(counts: Counts, k: nat, n: Counts) {
    k > 0 && forall i | 0 <= i < 5 :: n[i] as real == k as real * Regularised(counts[i])
  }

  /** In thousandths of a pair; a category without pairs has one. */
  function Thousandths(counts: Counts): Counts { seq(5, i requires 0 <= i < 5 => if counts[i] == 0 then 1 else 1000 * counts[i]) }

  lemma ThousandthsCount(counts: Counts)
    ensures CountsIn(counts, 1000, Thousandths(counts))
  {
  }

  lemma PairsCount(counts: Counts)
    requires forall i | 0 <= i < 5 :: counts[i] > 0
    ensures CountsIn(counts, 1, counts)
  {
  }

  lemma Regroup(c: real, x: real, y: real)
    ensures (c * x) * y == c * (x * y)
  {
  }

  lemma DotScale(c: real, v: Vec, w: Vec)
    ensures Dot(Scale(c, v), w) == c * Dot(v, w)
  {
    forall i | 0 <= i < 5 ensures Times(Scale(c, v), w)[i] == Scale(c, Times(v, w))[i] {
      Regroup(c, v[i], w[i]);
    }
    assert Times(Scale(c, v), w) == Scale(c, Times(v, w));
    SumScale(c, Times(v, w));
  }

  /** The logarithm of the likelihood of the counts n, k to the pair, by the frequencies. */
  lemma LogTermsSum(ln: real -> real, m: real, pdf: Vec, q: Vec, k: real, n: Counts)
    requires Reals(n) == Scale(k, Scale(m, pdf))
    ensures Sum(LogTerms(ln, q, n)) == k * (m * Likelihood(ln, pdf, q))
  {
    DotScale(k, Scale(m, pdf), Logs(ln, q));
    DotScale(m, pdf, Logs(ln, q));
  }

  lemma TakeOut(k: real, m: real, x: real, y: real)
    ensures k * (m * (x - y)) == k * (m * x) - k * (m * y)
  {
    MulMinus(m, x, y);
    MulMinus(k, m * x, m * y);
  }

  lemma ScaledRatios(ln: real -> real, m: real, pdf: Vec, p1: Vec, p0: Vec, k: real, n: Counts, ratio: real)
    requires Reals(n) == Scale(k, Scale(m, pdf))
    requires ratio == OverAll(m, Sum(LogRatios(ln, pdf, p1, p0)))
    ensures k * ratio == Sum(LogTerms(ln, p1, n)) - Sum(LogTerms(ln, p0, n))
  {
    RatiosSum(ln, pdf, p1, p0);
    LogTermsSum(ln, m, pdf, p1, k, n);
    LogTermsSum(ln, m, pdf, p0, k, n);
    TakeOut(k, m, Likelihood(ln, pdf, p1), Likelihood(ln, pdf, p0));
  }

  lemma ComparedLogs(ln: real -> real, m: real, pdf: Vec, p1: Vec, p0: Vec, k: real, n: Counts) returns (ratio: real)
    requires IsLn(ln) && Positive(p0) && Positive(p1) && Reals(n) == Scale(k, Scale(m, pdf))
    ensures Compare(ln, m, pdf, Some(p0), Some(p1)) == Some(ratio)
    ensures k * ratio == ln(LikelihoodOf(p1, n) / LikelihoodOf(p0, n))
  {
    ratio := OverAll(m, Sum(LogRatios(ln, pdf, p1, p0)));
    ScaledRatios(ln, m, pdf, p1, p0, k, n, ratio);
    LnOfLikelihood(ln, p1, n);
    LnOfLikelihood(ln, p0, n);
    LnOfQuotient(ln, LikelihoodOf(p1, n), LikelihoodOf(p0, n), LikelihoodOf(p1, n) / LikelihoodOf(p0, n));
  }

  /** The two fits of a test. */
  ghost predicate Fits(t: Tools, elo0: real, elo1: real, counts: Counts, p0: Vec, p1: Vec)
    requires Sound(t)
  {
    PdfIsDistribution(counts);
    MleTValue(t, ToPdf(counts), TValue(t, elo0)) == Some(p0) && MleTValue(t, ToPdf(counts), TValue(t, elo1)) == Some(p1)
  }

  lemma FrequencyTimesMass(counts: Counts, i: nat)
    requires i < 5
    ensures Mass(counts) * ToPdf(counts)[i] == Regularised(counts[i])
  {
    MassPositive(counts);
    assert Weights(counts)[i] == Regularised(counts[i]);
  }

  lemma CountsOfFrequencies(counts: Counts, k: nat, n: Counts)
    requires CountsIn(counts, k, n)
    ensures Reals(n) == Scale(k as real, Scale(Mass(counts), ToPdf(counts)))
  {
    forall i | 0 <= i < 5 ensures Scale(Mass(counts), ToPdf(counts))[i] == Regularised(counts[i]) {
      FrequencyTimesMass(counts, i);
    }
    assert forall i | 0 <= i < 5 :: Reals(n)[i] == Scale(k as real, Scale(Mass(counts), ToPdf(counts)))[i];
  }

  lemma RatioOfFits(ln: real -> real, counts: Counts, p0: Vec, p1: Vec, k: nat, n: Counts) returns (llr: real)
    requires IsLn(ln) && Positive(p0) && Positive(p1) && CountsIn(counts, k, n)
    ensures Compare(ln, Mass(counts), ToPdf(counts), Some(p0), Some(p1)) == Some(llr)
    ensures k as real * llr == ln(LikelihoodOf(p1, n) / LikelihoodOf(p0, n))
  {
    CountsOfFrequencies(counts, k, n);
    llr := ComparedLogs(ln, Mass(counts), ToPdf(counts), p1, p0, k as real, n);
  }

  lemma LlrCompares(t: Tools, elo0: real, elo1: real, counts: Counts, p0: Vec, p1: Vec)
    requires Sound(t) && Pairs(counts) > 0 && Fits(t, elo0, elo1, counts, p0, p1)
    ensures Positive(p0) && Positive(p1)
    ensures LlrNormalized(t, elo0, elo1, counts) == Compare(t.ln, Mass(counts), ToPdf(counts), Some(p0), Some(p1))
  {
    PdfIsDistribution(counts);
  }

  /** llr_normalized is the logarithm of the likelihood ratio, for any counts: k times it is that of the
      ratio of the likelihoods of the same counts taken k to the pair. */
  lemma LlrIsLogRatio(t: Tools, elo0: real, elo1: real, counts: Counts, p0: Vec, p1: Vec, k: nat, n: Counts) returns (llr: real)
    requires Sound(t) && IsLn(t.ln) && Pairs(counts) > 0 && Fits(t, elo0, elo1, counts, p0, p1) && CountsIn(counts, k, n)
    ensures LlrNormalized(t, elo0, elo1, counts) == Some(llr)
    ensures Positive(p0) && Positive(p1)
    ensures k as real * llr == t.ln(LikelihoodOf(p1, n) / LikelihoodOf(p0, n))
  {
    LlrCompares(t, elo0, elo1, counts, p0, p1);
    llr := RatioOfFits(t.ln, counts, p0, p1, k, n);
  }

  lemma Once(x: real, k: nat, y: real)
    requires k == 1 && k as real * x == y
    ensures x == y
  {
  }

  /** With no category empty it is the logarithm of the likelihood ratio of the counts themselves. */
  lemma LlrIsLogRatioOfPairs(t: Tools, elo0: real, elo1: real, counts: Counts, p0: Vec, p1: Vec) returns (llr: real)
    requires Sound(t) && IsLn(t.ln) && Fits(t, elo0, elo1, counts, p0, p1) && forall i | 0 <= i < 5 :: counts[i] > 0
    ensures Positive(p0) && Positive(p1)
    ensures LlrNormalized(t, elo0, elo1, counts) == Some(llr) && llr == t.ln(LikelihoodOf(p1, counts) / LikelihoodOf(p0, counts))
  {
    PairsCount(counts);
    var k: nat := 1;
    llr := LlrIsLogRatio(t, elo0, elo1, counts, p0, p1, k, counts);
    Once(llr, k, t.ln(LikelihoodOf(p1, counts) / LikelihoodOf(p0, counts)));
  }

  // ---------------------------------------------------------------------------
  // The decision
  // ---------------------------------------------------------------------------

  lemma LnOrder(ln: real -> real, x: real, y: real)
    requires IsLn(ln) && x > 0.0 && y > 0.0
    ensures ln(x) <= ln(y) <==> x <= y
  {
    if x < y {
      LnIncreases(ln, x, y);
    } else if y < x {
      LnIncreases(ln, y, x);
    }
  }

  lemma FourFactors(a: real, b: real, c: real, d: real)
    ensures (a * b) * (c * d) == (a * c) * (b * d)
  {
    MulSwap(a, b, c * d);
    assert (b * (c * d)) * a == (a * c) * (b * d);
  }

  lemma {:induction false} PowerOfQuotient(x: real, y: real, q: real, k: nat)
    requires y > 0.0 && q * y == x
    ensures Power(q, k) * Power(y, k) == Power(x, k)
    decreases k
  {
    if k > 0 {
      PowerOfQuotient(x, y, q, k - 1);
      FourFactors(q, Power(q, k - 1), y, Power(y, k - 1));
    }
  }

  lemma TimesOrder(c: real, x: real, y: real)
    requires c > 0.0
    ensures c * x <= c * y <==> x <= y
    ensures c * x >= c * y <==> x >= y
  {
    if x < y {
      MulLess(c, x, y);
    } else if y < x {
      MulLess(c, y, x);
    }
  }

  lemma LogSides(ln: real -> real, r: real, q: real, k: nat)
    requires IsLn(ln) && r > 0.0 && q > 0.0
    ensures ln(Power(q, k)) == k as real * ln(q)
    ensures ln(r) <= ln(Power(q, k)) <==> r <= Power(q, k)
    ensures ln(Power(q, k)) <= ln(r) <==> Power(q, k) <= r
  {
    LnOfPower(ln, q, k);
    LnOrder(ln, r, Power(q, k));
    LnOrder(ln, Power(q, k), r);
  }

  lemma Transfer(k: real, llr: real, bound: real, lnR: real, lnP: real, r: real, p: real, y: real, x: real)
    requires k > 0.0 && k * llr == lnR && k * bound == lnP && y > 0.0 && p * y == x
    requires (lnR <= lnP <==> r <= p) && (lnP <= lnR <==> p <= r)
    ensures llr >= bound <==> r * y >= x
    ensures llr <= bound <==> r * y <= x
  {
    TimesOrder(k, llr, bound);
    TimesOrder(y, r, p);
  }

  /** Comparing an LLR with the logarithm of q = x / y is comparing the likelihood ratio r with it; p, px and py
      are the powers. */
  lemma AgainstBound(ln: real -> real, k: nat, llr: real, r: real, x: real, y: real, q: real) returns (px: real, py: real)
    requires IsLn(ln) && k > 0 && r > 0.0 && k as real * llr == ln(r) && y > 0.0 && q > 0.0 && q * y == x
    ensures px == Power(x, k) && py == Power(y, k)
    ensures llr >= ln(q) <==> r * py >= px
    ensures llr <= ln(q) <==> r * py <= px
  {
    PowerOfQuotient(x, y, q, k);
    LogSides(ln, r, q, k);
    px, py := Power(x, k), Power(y, k);
    Transfer(k as real, llr, ln(q), ln(r), ln(Power(q, k)), r, Power(q, k), py, px);
  }

  /** The decision on a likelihood ratio r, for error rates alpha and beta (sprt_bounds and sprt_decide): H1 is
      accepted if r is at least (1 - beta) / alpha, and otherwise H0 if r is at most beta / (1 - alpha). With
      counts taken k to the pair the k-th powers are compared. */
  predicate AcceptsH1(r: real, alpha: real, beta: real, k: nat) { r * Power(alpha, k) >= Power(1.0 - beta, k) }

  predicate AcceptsH0(r: real, alpha: real, beta: real, k: nat) { r * Power(1.0 - alpha, k) <= Power(beta, k) }

  lemma DecisionIsWalds(ln: real -> real, alpha: real, beta: real, k: nat, llr: real, r: real)
    requires IsLn(ln) && 0.0 < alpha < 1.0 && 0.0 < beta < 1.0 && k > 0 && r > 0.0 && k as real * llr == ln(r)
    ensures SprtDecide(llr, SprtBounds(ln, alpha, beta))
         == if AcceptsH1(r, alpha, beta, k) then AcceptH1 else if AcceptsH0(r, alpha, beta, k) then AcceptH0 else Continue
  {
    RatioPositive(1.0 - beta, alpha);
    RatioPositive(beta, 1.0 - alpha);
    var upX, upY := AgainstBound(ln, k, llr, r, 1.0 - beta, alpha, (1.0 - beta) / alpha);
    var lowX, lowY := AgainstBound(ln, k, llr, r, beta, 1.0 - alpha, beta / (1.0 - alpha));
  }

  lemma OncePower(x: real)
    ensures Power(x, 1) == x
  {
    assert Power(x, 1) == x * Power(x, 0);
  }

  /** For the likelihood ratio itself: H1 iff r alpha >= 1 - beta, otherwise H0 iff r (1 - alpha) <= beta. */
  lemma DecisionOnRatio(ln: real -> real, alpha: real, beta: real, r: real)
    requires IsLn(ln) && 0.0 < alpha < 1.0 && 0.0 < beta < 1.0 && r > 0.0
    ensures SprtDecide(ln(r), SprtBounds(ln, alpha, beta))
         == if r * alpha >= 1.0 - beta then AcceptH1 else if r * (1.0 - alpha) <= beta then AcceptH0 else Continue
  {
    OncePower(alpha);
    OncePower(beta);
    OncePower(1.0 - alpha);
    OncePower(1.0 - beta);
    DecisionIsWalds(ln, alpha, beta, 1, ln(r), r);
  }

  lemma RatioIsPositive(q: Vec, p: Vec, n: Counts)
    requires Positive(q) && Positive(p)
    ensures LikelihoodOf(q, n) / LikelihoodOf(p, n) > 0.0
  {
    RatioPositive(LikelihoodOf(q, n), LikelihoodOf(p, n));
  }

  /** The server's decision on a test: its two fits are compared by the likelihood ratio of its games, whatever
      the counts. */
  lemma TestIsDecidedByLikelihood(t: Tools, ttl: real, maxAttempts: nat, elo0: real, elo1: real, alpha: real, beta: real,
                                  penta: Counts, wins: nat, draws: nat, losses: nat, p0: Vec, p1: Vec, k: nat, n: Counts)
    requires Sound(t) && IsLn(t.ln) && 0.0 < alpha < 1.0 && 0.0 < beta < 1.0 && Total(penta) > 0
    requires Fits(t, elo0, elo1, penta, p0, p1) && CountsIn(penta, k, n)
    ensures Positive(p0) && Positive(p1)
    ensures var cfg, kind := Gsprt(t, ttl, maxAttempts), Sprt(elo0, elo1, alpha, beta);
            var st, r := StatsFrom(cfg, kind, penta, wins, draws, losses), LikelihoodOf(p1, n) / LikelihoodOf(p0, n);
            && st.Some?
            && Decide(cfg, kind, st.value)
               == if AcceptsH1(r, alpha, beta, k) then AcceptH1 else if AcceptsH0(r, alpha, beta, k) then AcceptH0 else Continue
  {
    TotalOfFive(penta);
    var llr := LlrIsLogRatio(t, elo0, elo1, penta, p0, p1, k, n);
    RatioIsPositive(p1, p0, n);
    DecisionIsWalds(t.ln, alpha, beta, k, llr, LikelihoodOf(p1, n) / LikelihoodOf(p0, n));
    DecidesOn(t, ttl, maxAttempts, elo0, elo1, alpha, beta, penta, wins, draws, losses, llr);
  }

  lemma DecidesOn(t: Tools, ttl: real, maxAttempts: nat, elo0: real, elo1: real, alpha: real, beta: real,
                  penta: Counts, wins: nat, draws: nat, losses: nat, llr: real)
    requires Sound(t) && 0.0 < alpha < 1.0 && 0.0 < beta < 1.0 && Total(penta) > 0
    requires LlrNormalized(t, elo0, elo1, penta) == Some(llr)
    ensures var cfg, kind := Gsprt(t, ttl, maxAttempts), Sprt(elo0, elo1, alpha, beta);
            var st := StatsFrom(cfg, kind, penta, wins, draws, losses);
            st.Some? && Decide(cfg, kind, st.value) == SprtDecide(llr, SprtBounds(t.ln, alpha, beta))
  {
  }
}
