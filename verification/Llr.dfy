/** common/gsprt.cpp and common/penta.cpp: the regularised distribution, the iteration of mle_t_value,
    the log-likelihood ratio and the SPRT decision; and their mirror image, the same games seen from
    the baseline's side. In exact reals. */
module Llr {
  import opened Schema
  import opened Vectors
  import opened Secular
  import opened Mle

  datatype Tools = Tools(sqrt: real -> real, ln: real -> real, solve: (Vec, Vec) -> real)

  /** What the computation needs of its tools; of the logarithm, nothing. */
  ghost predicate Sound(t: Tools) { IsSqrt(t.sqrt) && StaysInside(t.solve) }

  // ---------------------------------------------------------------------------
  // Moments
  // ---------------------------------------------------------------------------

  function Mean(p: Vec): real { Dot(p, VALUES) }

  function SpreadOf(p: real, v: real, mean: real): real { p * (v - mean) * (v - mean) }

  function Spread(p: Vec, mean: real): Vec { seq(5, i requires 0 <= i < 5 => SpreadOf(p[i], VALUES[i], mean)) }

  function Variance(p: Vec): real { Sum(Spread(p, Mean(p))) }

  method MeanOf(probs: Vec) returns (mean: real)
    ensures mean == Mean(probs)
  {
    mean := 0.0;
    var terms := Times(probs, VALUES);
    for i := 0 to 5
      invariant mean == SumTo(terms, i)
    {
      mean := mean + terms[i];
    }
  }

  method VarianceOf(probs: Vec, mean: real) returns (variance: real)
    ensures variance == Sum(Spread(probs, mean))
  {
    variance := 0.0;
    var terms := Spread(probs, mean);
    for i := 0 to 5
      invariant variance == SumTo(terms, i)
    {
      variance := variance + terms[i];
    }
  }

  /** moments */
  method Moments(probs: Vec) returns (mean: real, variance: real)
    ensures mean == Mean(probs) && variance == Variance(probs)
  {
    mean := MeanOf(probs);
    variance := VarianceOf(probs, mean);
  }

  lemma SquareTimes(p: real, d: real, pd: real)
    requires p > 0.0 && d != 0.0 && pd == p * d
    ensures pd * d > 0.0
  {
    if d > 0.0 {
      MulPositive(p, d);
      MulPositive(pd, d);
    } else {
      MulPositive(p, -d);
      MulPositive(-pd, -d);
    }
  }

  lemma SpreadPositive(p: real, v: real, mean: real)
    requires p > 0.0
    ensures v == mean ==> SpreadOf(p, v, mean) == 0.0
    ensures v != mean ==> SpreadOf(p, v, mean) > 0.0
  {
    var d := v - mean;
    if d != 0.0 {
      SquareTimes(p, d, p * d);
    }
  }

  const ZEROS: Vec := [0.0, 0.0, 0.0, 0.0, 0.0]

  lemma SumZeros()
    ensures Sum(ZEROS) == 0.0
  {
    SumFive(ZEROS);
  }

  /** No distribution here is concentrated on one score. */
  lemma VariancePositive(p: Vec)
    requires Positive(p)
    ensures Variance(p) > 0.0
  {
    var m, s := Mean(p), Spread(p, Mean(p));
    forall i | 0 <= i < 5 ensures s[i] >= 0.0 && (VALUES[i] != m ==> s[i] > 0.0) {
      SpreadPositive(p[i], VALUES[i], m);
    }
    var i := if m == 0.0 then 4 else 0;
    assert VALUES[i] != m;
    assert ZEROS[i] < s[i];
    SumZeros();
    SumOrder(ZEROS, s);
  }

  // ---------------------------------------------------------------------------
  // mle_t_value
  // ---------------------------------------------------------------------------

  const REF: real := 0.5
  const TOLERANCE: real := 0.000000001

  /** How many passes the loop makes at most. */
  function Passes(): nat { 10 }

  function Bend(v: real, mean: real, sigma: real, s: real): real
    requires sigma > 0.0
  {
    var z := (mean - v) / sigma;
    v - REF - s * sigma * (1.0 + z * z) / 2.0
  }

  function Constraint(mean: real, sigma: real, s: real): Vec
    requires sigma > 0.0
  {
    seq(5, i requires 0 <= i < 5 && sigma > 0.0 => Bend(VALUES[i], mean, sigma, s))
  }

  function Linearised(t: Tools, s: real, pdf: Vec): Vec
    requires IsSqrt(t.sqrt) && Positive(pdf)
  {
    VariancePositive(pdf);
    Constraint(Mean(pdf), t.sqrt(Variance(pdf)), s)
  }

  /** One pass of the loop; None where secular throws. */
  function Step(t: Tools, hat: Vec, s: real, pdf: Vec): (next: Option<Vec>)
    requires Sound(t) && Distribution(hat) && Positive(pdf)
    ensures next.Some? ==> Positive(next.value)
  {
    var a := Linearised(t, s, pdf);
    if !Straddles(a) then None
    else
      TiltPositive(a, hat, t.solve(a, hat));
      Some(Tilt(a, hat, t.solve(a, hat)))
  }

  /** The distribution has settled. */
  predicate Close(u: Vec, v: Vec) { forall i | 0 <= i < 5 :: Abs(u[i] - v[i]) < TOLERANCE }

  /** At most n passes from pdf on. */
  function Iterate(t: Tools, hat: Vec, s: real, pdf: Vec, n: nat): (result: Option<Vec>)
    requires Sound(t) && Distribution(hat) && Positive(pdf)
    ensures result.Some? ==> Positive(result.value)
    decreases n
  {
    if n == 0 then Some(pdf)
    else match Step(t, hat, s, pdf)
      case None => None
      case Some(next) => if Close(pdf, next) then Some(next) else Iterate(t, hat, s, next, n - 1)
  }

  /** One pass of the remaining ones. */
  lemma IterateOnce(t: Tools, hat: Vec, s: real, pdf: Vec, n: nat, next: Option<Vec>)
    requires Sound(t) && Distribution(hat) && Positive(pdf) && n > 0 && next == Step(t, hat, s, pdf)
    ensures Iterate(t, hat, s, pdf, n) ==
              if next.None? then None
              else if Close(pdf, next.value) then next
              else Iterate(t, hat, s, next.value, n - 1)
  {
  }

  lemma UniformIsDistribution()
    ensures Distribution(UNIFORM)
  {
    SumFive(UNIFORM);
  }

  function MleTValue(t: Tools, hat: Vec, s: real): (result: Option<Vec>)
    requires Sound(t) && Distribution(hat)
    ensures result.Some? ==> Positive(result.value)
  {
    UniformIsDistribution();
    Iterate(t, hat, s, UNIFORM, Passes())
  }

  /** The loop that bends the scores. */
  method Bent(mean: real, sigma: real, s: real) returns (a: seq<real>)
    requires sigma > 0.0
    ensures a == Constraint(mean, sigma, s)
  {
    a := [];
    for i := 0 to 5
      invariant |a| == i && forall k | 0 <= k < i :: a[k] == Bend(VALUES[k], mean, sigma, s)
    {
      var z := (mean - VALUES[i]) / sigma;
      a := a + [VALUES[i] - REF - s * sigma * (1.0 + z * z) / 2.0];
    }
  }

  method MaxDelta(prev: Vec, pdf: Vec) returns (maxDelta: real)
    ensures maxDelta < TOLERANCE <==> Close(prev, pdf)
  {
    maxDelta := 0.0;
    for i := 0 to 5
      invariant maxDelta < TOLERANCE <==> forall k | 0 <= k < i :: Abs(prev[k] - pdf[k]) < TOLERANCE
    {
      maxDelta := Max(maxDelta, Abs(prev[i] - pdf[i]));
    }
  }

  /** The body of the loop. */
  method ComputeStep(t: Tools, hat: Vec, s: real, pdf: Vec) returns (next: Option<Vec>)
    requires Sound(t) && Distribution(hat) && Positive(pdf)
    ensures next == Step(t, hat, s, pdf)
  {
    var mean, variance := Moments(pdf);
    VariancePositive(pdf);
    var a := Bent(mean, t.sqrt(variance), s);
    assert a == Linearised(t, s, pdf);
    if !Straddles(a) {
      return None;
    }
    var x := t.solve(a, hat);
    next := Some(Tilt(a, hat, x));
  }

  /** mle_t_value; None where secular throws. */
  method ComputeMle(t: Tools, hat: Vec, s: real) returns (result: Option<Vec>)
    requires Sound(t) && Distribution(hat)
    ensures result == MleTValue(t, hat, s)
  {
    var pdf := UNIFORM;
    UniformIsDistribution();
    var iter := 0;
    ghost var fit := MleTValue(t, hat, s);
    while iter < Passes()
      invariant iter <= Passes() && Positive(pdf)
      invariant Iterate(t, hat, s, pdf, Passes() - iter) == fit
    {
      var next := ComputeStep(t, hat, s, pdf);
      IterateOnce(t, hat, s, pdf, Passes() - iter, next);
      if next.None? {
        return None;
      }
      var maxDelta := MaxDelta(pdf, next.value);
      if maxDelta < TOLERANCE {
        return next;
      }
      pdf := next.value;
      iter := iter + 1;
    }
    result := Some(pdf);
  }

  // ---------------------------------------------------------------------------
  // llr_normalized
  // ---------------------------------------------------------------------------

  type Counts = c: seq<nat> | |c| == 5 witness [0, 0, 0, 0, 0]

  function Regularised(n: nat): (r: real)
    ensures r > 0.0
  {
    if n == 0 then 0.001 else n as real
  }

  function Weights(counts: Counts): Vec { seq(5, i requires 0 <= i < 5 => Regularised(counts[i])) }

  function Mass(counts: Counts): real { Sum(Weights(counts)) }

  lemma MassPositive(counts: Counts)
    ensures Mass(counts) > 0.0
  {
    SumZeros();
    assert ZEROS[0] < Weights(counts)[0];
    SumOrder(ZEROS, Weights(counts));
  }

  /** to_pdf */
  function ToPdf(counts: Counts): Vec {
    MassPositive(counts);
    seq(5, i requires 0 <= i < 5 && Mass(counts) > 0.0 => Weights(counts)[i] / Mass(counts))
  }

  lemma DivideAsScale(w: real, m: real, inverse: real)
    requires m > 0.0 && m * inverse == 1.0
    ensures w / m == inverse * w
  {
    var q := w / m;
    assert q * m == w;
    MulSwap(inverse, w, m);
    assert (inverse * w) * m == w * (m * inverse);
    SameQuotient(q, inverse * w, m);
  }

  /** The regularised frequencies are a distribution with no zero. */
  lemma PdfIsDistribution(counts: Counts)
    ensures Distribution(ToPdf(counts))
  {
    MassPositive(counts);
    var m, w, p := Mass(counts), Weights(counts), ToPdf(counts);
    var inverse := 1.0 / m;
    Reciprocal(m);
    forall i | 0 <= i < 5 ensures p[i] == Scale(inverse, w)[i] && p[i] > 0.0 {
      DivideAsScale(w[i], m, inverse);
      RatioPositive(w[i], m);
    }
    assert p == Scale(inverse, w);
    SumScale(inverse, w);
  }

  method ComputePdf(counts: Counts) returns (mass: real, p: seq<real>)
    ensures mass == Mass(counts) && p == ToPdf(counts)
  {
    var w := Weights(counts);
    mass := 0.0;
    for i := 0 to 5
      invariant mass == SumTo(w, i)
    {
      mass := mass + w[i];
    }
    assert mass == Sum(w);
    MassPositive(counts);
    p := [];
    for i := 0 to 5
      invariant |p| == i && forall k | 0 <= k < i :: p[k] == w[k] / mass
    {
      p := p + [w[i] / mass];
    }
  }

  const NELO_DIVIDED_BY_NT: real := 347.43558552260146

  /** The t-value of a pair. */
  function TValue(t: Tools, elo: real): real { elo / NELO_DIVIDED_BY_NT * t.sqrt(2.0) }

  function LogRatios(ln: real -> real, p: Vec, p1: Vec, p0: Vec): Vec {
    seq(5, i requires 0 <= i < 5 => p[i] * (ln(p1[i]) - ln(p0[i])))
  }

  lemma RatiosSum(ln: real -> real, p: Vec, p1: Vec, p0: Vec)
    ensures Sum(LogRatios(ln, p, p1, p0)) == Likelihood(ln, p, p1) - Likelihood(ln, p, p0)
  {
    forall i | 0 <= i < 5 ensures LogRatios(ln, p, p1, p0)[i] == Gains(ln, p, p1, p0)[i] {
      MulMinus(p[i], ln(p1[i]), ln(p0[i]));
    }
    assert LogRatios(ln, p, p1, p0) == Gains(ln, p, p1, p0);
    GainsSum(ln, p, p1, p0);
  }

  function Pairs(counts: Counts): nat { counts[0] + counts[1] + counts[2] + counts[3] + counts[4] }

  /** From the ratio per pair to that of all the pairs. */
  function OverAll(mass: real, perPair: real): real { mass * perPair }

  /** The ratio for two fitted distributions; None if fitting one of them threw. */
  function Compare(ln: real -> real, mass: real, pdf: Vec, p0: Option<Vec>, p1: Option<Vec>): Option<real> {
    if p0.None? || p1.None? then None
    else Some(OverAll(mass, Sum(LogRatios(ln, pdf, p1.value, p0.value))))
  }

  function LlrOfPdf(t: Tools, mass: real, pdf: Vec, t0: real, t1: real): Option<real>
    requires Sound(t) && Distribution(pdf)
  {
    Compare(t.ln, mass, pdf, MleTValue(t, pdf, t0), MleTValue(t, pdf, t1))
  }

  /** llr_normalized; None where it throws. */
  function LlrNormalized(t: Tools, elo0: real, elo1: real, counts: Counts): Option<real>
    requires Sound(t)
  {
    if Pairs(counts) == 0 then Some(0.0)
    else
      PdfIsDistribution(counts);
      LlrOfPdf(t, Mass(counts), ToPdf(counts), TValue(t, elo0), TValue(t, elo1))
  }

  method PerPair(ln: real -> real, p: Vec, p1: Vec, p0: Vec) returns (llr: real)
    ensures llr == Sum(LogRatios(ln, p, p1, p0))
  {
    llr := 0.0;
    var terms := LogRatios(ln, p, p1, p0);
    for i := 0 to 5
      invariant llr == SumTo(terms, i)
    {
      llr := llr + terms[i];
    }
  }

  method ComputeRatio(ln: real -> real, mass: real, pdf: Vec, p0: Option<Vec>, p1: Option<Vec>) returns (llr: Option<real>)
    ensures llr == Compare(ln, mass, pdf, p0, p1)
  {
    if p0.None? || p1.None? {
      return None;
    }
    var perPair := PerPair(ln, pdf, p1.value, p0.value);
    llr := Some(OverAll(mass, perPair));
  }

  method Fit(t: Tools, mass: real, pdf: Vec, t0: real, t1: real) returns (llr: Option<real>)
    requires Sound(t) && Distribution(pdf)
    ensures llr == LlrOfPdf(t, mass, pdf, t0, t1)
  {
    var p0 := ComputeMle(t, pdf, t0);
    var p1 := ComputeMle(t, pdf, t1);
    llr := ComputeRatio(t.ln, mass, pdf, p0, p1);
  }

  /** llr_normalized */
  method ComputeLlr(t: Tools, elo0: real, elo1: real, counts: Counts) returns (llr: Option<real>)
    requires Sound(t)
    ensures llr == LlrNormalized(t, elo0, elo1, counts)
  {
    if Pairs(counts) == 0 {
      return Some(0.0);
    }
    PdfIsDistribution(counts);
    var mass, pdf := ComputePdf(counts);
    llr := Fit(t, mass, pdf, TValue(t, elo0), TValue(t, elo1));
  }
}
