/** common/gsprt.cpp, mle_t_value: the constrained maximum-likelihood iteration. In exact reals, with
    the square root, the logarithm and the solver of the secular equation as parameters. */
module Mle {
  import opened Vectors
  import opened Secular

  const VALUES: Vec := [0.0, 0.25, 0.5, 0.75, 1.0]
  const UNIFORM: Vec := [0.2, 0.2, 0.2, 0.2, 0.2]

  ghost predicate IsSqrt(sqrt: real -> real) {
    forall v | v > 0.0 :: sqrt(v) > 0.0 && sqrt(v) * sqrt(v) == v
  }

  /** All that is needed of the logarithm. */
  ghost predicate IsLn(ln: real -> real) {
    && (forall t | t > 0.0 :: ln(t) <= t - 1.0)
    && (forall s, t {:trigger ln(s / t)} | s > 0.0 && t > 0.0 :: ln(s / t) == ln(s) - ln(t))
  }

  /** Whatever the solver gives, it lies between the poles. */
  ghost predicate StaysInside(solve: (Vec, Vec) -> real) {
    forall a: Vec, p: Vec | Straddles(a) && Positive(p) :: InDomain(a, solve(a, p))
  }

  /** The solver gives what the bisection converges to. */
  ghost predicate IsSolver(solve: (Vec, Vec) -> real) {
    forall a: Vec, p: Vec | Straddles(a) && Positive(p) :: IsLimit(a, p, solve(a, p))
  }

  // ---------------------------------------------------------------------------
  // One step: tilting a distribution
  // ---------------------------------------------------------------------------

  function Tilt(a: Vec, p: Vec, x: real): Vec
    requires InDomain(a, x)
  {
    seq(5, i requires 0 <= i < 5 && InDomain(a, x) => p[i] / Den(a[i], x))
  }

  lemma TiltOne(p: real, a: real, x: real)
    requires Den(a, x) > 0.0
    ensures p / Den(a, x) == p - x * Term(p, a, x)
    ensures (p / Den(a, x)) * a == Term(p, a, x)
    ensures p > 0.0 ==> p / Den(a, x) > 0.0
  {
    var d, q, term := Den(a, x), p / Den(a, x), Term(p, a, x);
    assert q * d == p && term * d == p * a;
    SameQuotient(q * a, term, d);
    assert (p - x * term) * d == p * d - x * (term * d);
    assert p * d == p + p * (x * a) && x * (p * a) == p * (x * a);
    SameQuotient(q, p - x * term, d);
    if p > 0.0 {
      RatioPositive(p, d);
    }
  }

  lemma TiltEach(a: Vec, p: Vec, x: real)
    requires InDomain(a, x)
    ensures Tilt(a, p, x) == Minus(p, Scale(x, Terms(a, p, x)))
    ensures Times(Tilt(a, p, x), a) == Terms(a, p, x)
    ensures Positive(p) ==> Positive(Tilt(a, p, x))
  {
    var q := Tilt(a, p, x);
    forall i | 0 <= i < 5
      ensures q[i] == Minus(p, Scale(x, Terms(a, p, x)))[i]
      ensures Times(q, a)[i] == Terms(a, p, x)[i]
      ensures p[i] > 0.0 ==> q[i] > 0.0
    {
      TiltOne(p[i], a[i], x);
    }
  }

  /** The mass of the tilted distribution, for every x. */
  lemma TiltMass(a: Vec, p: Vec, x: real)
    requires InDomain(a, x)
    ensures Sum(Tilt(a, p, x)) == Sum(p) - x * F(a, p, x)
    ensures Dot(Tilt(a, p, x), a) == F(a, p, x)
    ensures Positive(p) ==> Positive(Tilt(a, p, x))
  {
    TiltEach(a, p, x);
    SumMinus(p, Scale(x, Terms(a, p, x)));
    SumScale(x, Terms(a, p, x));
  }

  lemma TiltPositive(a: Vec, p: Vec, x: real)
    requires InDomain(a, x) && Positive(p)
    ensures Positive(Tilt(a, p, x))
  {
    TiltMass(a, p, x);
  }

  /** At the root it is a probability distribution that meets the linearised constraint. */
  lemma TiltAtRoot(a: Vec, p: Vec, x: real)
    requires Distribution(p) && IsRoot(a, p, x)
    ensures Distribution(Tilt(a, p, x)) && Dot(Tilt(a, p, x), a) == 0.0
  {
    TiltMass(a, p, x);
  }

  // ---------------------------------------------------------------------------
  // It is the likeliest one
  // ---------------------------------------------------------------------------

  function Logs(ln: real -> real, q: Vec): Vec { seq(5, i requires 0 <= i < 5 => ln(q[i])) }

  /** The expected log-likelihood of q under p. */
  function Likelihood(ln: real -> real, p: Vec, q: Vec): real { Dot(p, Logs(ln, q)) }

  lemma LnOfQuotient(ln: real -> real, s: real, t: real, q: real)
    requires IsLn(ln) && s > 0.0 && t > 0.0 && q == s / t
    ensures ln(q) == ln(s) - ln(t)
  {
  }

  lemma LnAtOne(ln: real -> real)
    requires IsLn(ln)
    ensures ln(1.0) == 0.0
  {
    LnOfQuotient(ln, 1.0, 1.0, 1.0);
  }

  lemma OverInverse(s: real, inv: real)
    requires s > 0.0 && inv > 0.0 && s * inv == 1.0
    ensures s / inv == s * s
  {
    var x := s / inv;
    assert x * inv == s;
    MulSwap(s, s, inv);
    assert (s * s) * inv == s;
    SameQuotient(x, s * s, inv);
  }

  /** The logarithm of a square, without squaring. */
  lemma LnOfSquare(ln: real -> real, s: real)
    requires IsLn(ln) && s > 0.0
    ensures ln(s * s) == 2.0 * ln(s)
  {
    LnAtOne(ln);
    var inv := 1.0 / s;
    Reciprocal(s);
    OverInverse(s, inv);
    assert ln(s / inv) == ln(s) - ln(inv) && ln(1.0 / s) == ln(1.0) - ln(s);
  }

  lemma Factors(s: real, a: real, b: real, square: real)
    requires a == s - 1.0 && b == s + 1.0 && square == s * s
    ensures a * b == square - 1.0
  {
  }

  lemma AboveTangent(s: real, square: real)
    requires s != 1.0 && square == s * s
    ensures 2.0 * (s - 1.0) < square - 1.0
  {
    var a, b := s - 1.0, s + 1.0;
    Factors(s, a, b, square);
    var ab := a * b;
    if s > 1.0 {
      ProductLess(a, 2.0, b, 2.0 * a, ab);
    } else {
      ProductLess(-a, b, 2.0, -ab, -2.0 * a);
    }
    assert 2.0 * a < ab;
  }

  lemma ProductLess(c: real, x: real, y: real, cx: real, cy: real)
    requires c > 0.0 && x < y && cx == c * x && cy == c * y
    ensures cx < cy
  {
  }

  /** Away from 1 the logarithm is strictly below its tangent. */
  lemma LnStrict(ln: real -> real, sqrt: real -> real, t: real)
    requires IsLn(ln) && IsSqrt(sqrt) && t > 0.0 && t != 1.0
    ensures ln(t) < t - 1.0
  {
    var s := sqrt(t);
    assert s > 0.0 && s * s == t;
    assert s != 1.0;
    LnOfSquare(ln, s);
    AboveTangent(s, t);
    assert ln(s) <= s - 1.0;
  }

  /** The arithmetic of one category: p = q d, r = ratio q, and the logarithm's bound at the ratio. */
  lemma OneCategory(p: real, d: real, r: real, q: real, ratio: real, lnR: real, lnQ: real)
    requires p > 0.0 && q * d == p && ratio * q == r
    ensures lnR - lnQ <= ratio - 1.0 ==> p * lnR - p * lnQ <= r * d - p
    ensures lnR - lnQ < ratio - 1.0 ==> p * lnR - p * lnQ < r * d - p
  {
    var gain, limit := lnR - lnQ, ratio - 1.0;
    MulMinus(p, lnR, lnQ);
    MulMinus(p, ratio, 1.0);
    MulSwap(ratio, q, d);
    assert p * limit == r * d - p;
    if gain < limit {
      MulLess(p, gain, limit);
    } else if gain <= limit {
      MulOrder(p, gain, limit);
    }
  }

  lemma RatioLn(ln: real -> real, r: real, q: real)
    requires IsLn(ln) && r > 0.0 && q > 0.0
    ensures ln(r) - ln(q) <= r / q - 1.0
  {
    RatioPositive(r, q);
    assert ln(r / q) == ln(r) - ln(q);
  }

  lemma RatioLnStrict(ln: real -> real, sqrt: real -> real, r: real, q: real)
    requires IsLn(ln) && IsSqrt(sqrt) && r > 0.0 && q > 0.0 && r != q
    ensures ln(r) - ln(q) < r / q - 1.0
  {
    RatioPositive(r, q);
    assert r / q != 1.0;
    LnStrict(ln, sqrt, r / q);
    assert ln(r / q) == ln(r) - ln(q);
  }

  lemma DenTimes(a: real, x: real, r: real)
    ensures r * Den(a, x) == r + x * (r * a)
  {
  }

  /** One category's part in the comparison of r with the tilted p. */
  lemma LikelihoodOne(ln: real -> real, p: real, a: real, x: real, r: real)
    requires IsLn(ln) && p > 0.0 && r > 0.0 && Den(a, x) > 0.0
    ensures p * ln(r) - p * ln(p / Den(a, x)) <= r + x * (r * a) - p
  {
    var d := Den(a, x);
    RatioPositive(p, d);
    var q := p / d;
    RatioPositive(r, q);
    RatioLn(ln, r, q);
    OneCategory(p, d, r, q, r / q, ln(r), ln(q));
    DenTimes(a, x, r);
  }

  lemma LikelihoodStrict(ln: real -> real, sqrt: real -> real, p: real, a: real, x: real, r: real)
    requires IsLn(ln) && IsSqrt(sqrt) && p > 0.0 && r > 0.0 && Den(a, x) > 0.0 && r != p / Den(a, x)
    ensures p * ln(r) - p * ln(p / Den(a, x)) < r + x * (r * a) - p
  {
    var d := Den(a, x);
    RatioPositive(p, d);
    var q := p / d;
    RatioPositive(r, q);
    RatioLnStrict(ln, sqrt, r, q);
    OneCategory(p, d, r, q, r / q, ln(r), ln(q));
    DenTimes(a, x, r);
  }

  /** What r gains over the tilted p, category by category, and what bounds it. */
  function Gains(ln: real -> real, p: Vec, r: Vec, q: Vec): Vec {
    Minus(Times(p, Logs(ln, r)), Times(p, Logs(ln, q)))
  }

  function Limits(a: Vec, p: Vec, x: real, r: Vec): Vec {
    Minus(Minus(r, p), Scale(-x, Times(r, a)))
  }

  lemma GainsSum(ln: real -> real, p: Vec, r: Vec, q: Vec)
    ensures Sum(Gains(ln, p, r, q)) == Likelihood(ln, p, r) - Likelihood(ln, p, q)
  {
    SumMinus(Times(p, Logs(ln, r)), Times(p, Logs(ln, q)));
  }

  lemma LimitsSum(a: Vec, p: Vec, x: real, r: Vec)
    requires Sum(p) == 1.0 && Sum(r) == 1.0 && Dot(r, a) == 0.0
    ensures Sum(Limits(a, p, x, r)) == 0.0
  {
    SumMinus(r, p);
    SumScale(-x, Times(r, a));
    SumMinus(Minus(r, p), Scale(-x, Times(r, a)));
  }

  lemma Entry(ln: real -> real, a: Vec, p: Vec, x: real, r: Vec, q: Vec, i: nat)
    requires i < 5
    ensures Gains(ln, p, r, q)[i] == p[i] * ln(r[i]) - p[i] * ln(q[i])
    ensures Limits(a, p, x, r)[i] == r[i] + x * (r[i] * a[i]) - p[i]
  {
    assert Times(r, a)[i] == r[i] * a[i];
    assert Scale(-x, Times(r, a))[i] == -x * (r[i] * a[i]);
    assert -x * (r[i] * a[i]) == -(x * (r[i] * a[i]));
  }

  lemma Accounts(ln: real -> real, a: Vec, p: Vec, x: real, r: Vec, q: Vec) returns (gains: Vec, limits: Vec)
    requires Sum(p) == 1.0 && Sum(r) == 1.0 && Dot(r, a) == 0.0
    ensures forall i | 0 <= i < 5 :: gains[i] == p[i] * ln(r[i]) - p[i] * ln(q[i])
    ensures forall i | 0 <= i < 5 :: limits[i] == r[i] + x * (r[i] * a[i]) - p[i]
    ensures Sum(gains) == Likelihood(ln, p, r) - Likelihood(ln, p, q)
    ensures Sum(limits) == 0.0
  {
    gains, limits := Gains(ln, p, r, q), Limits(a, p, x, r);
    GainsSum(ln, p, r, q);
    LimitsSum(a, p, x, r);
    forall i | 0 <= i < 5
      ensures gains[i] == p[i] * ln(r[i]) - p[i] * ln(q[i])
      ensures limits[i] == r[i] + x * (r[i] * a[i]) - p[i]
    {
      Entry(ln, a, p, x, r, q, i);
    }
  }

  lemma Gain(ln: real -> real, sqrt: real -> real, p: real, a: real, x: real, r: real, q: real, gain: real, limit: real)
    requires IsLn(ln) && IsSqrt(sqrt) && p > 0.0 && r > 0.0 && Den(a, x) > 0.0 && q == p / Den(a, x)
    requires gain == p * ln(r) - p * ln(q) && limit == r + x * (r * a) - p
    ensures gain <= limit && (r != q ==> gain < limit)
  {
    LikelihoodOne(ln, p, a, x, r);
    if r != q {
      LikelihoodStrict(ln, sqrt, p, a, x, r);
    }
  }

  lemma Dominated(ln: real -> real, sqrt: real -> real, a: Vec, p: Vec, x: real, r: Vec, q: Vec, gains: Vec, limits: Vec)
    requires IsLn(ln) && IsSqrt(sqrt) && Positive(p) && Positive(r) && InDomain(a, x)
    requires forall i | 0 <= i < 5 :: q[i] == p[i] / Den(a[i], x)
    requires forall i | 0 <= i < 5 :: gains[i] == p[i] * ln(r[i]) - p[i] * ln(q[i])
    requires forall i | 0 <= i < 5 :: limits[i] == r[i] + x * (r[i] * a[i]) - p[i]
    ensures Sum(gains) <= Sum(limits)
    ensures r != q ==> Sum(gains) < Sum(limits)
  {
    forall i | 0 <= i < 5 ensures gains[i] <= limits[i] && (r[i] != q[i] ==> gains[i] < limits[i]) {
      Gain(ln, sqrt, p[i], a[i], x, r[i], q[i], gains[i], limits[i]);
    }
    Ordered(gains, limits, r, q);
  }

  lemma Ordered(gains: Vec, limits: Vec, r: Vec, q: Vec)
    requires forall i | 0 <= i < 5 :: gains[i] <= limits[i] && (r[i] != q[i] ==> gains[i] < limits[i])
    ensures Sum(gains) <= Sum(limits)
    ensures r != q ==> Sum(gains) < Sum(limits)
  {
    SumOrder(gains, limits);
    if r != q {
      var i :| 0 <= i < 5 && r[i] != q[i];
      assert gains[i] < limits[i];
    }
  }

  /** Among all positive distributions that meet the constraint, the tilted one makes p likeliest, and
      it is the only one that does. */
  lemma TiltIsLikeliest(ln: real -> real, sqrt: real -> real, a: Vec, p: Vec, x: real, r: Vec)
    requires IsLn(ln) && IsSqrt(sqrt) && Distribution(p) && IsRoot(a, p, x)
    requires Distribution(r) && Dot(r, a) == 0.0
    ensures Likelihood(ln, p, r) <= Likelihood(ln, p, Tilt(a, p, x))
    ensures r != Tilt(a, p, x) ==> Likelihood(ln, p, r) < Likelihood(ln, p, Tilt(a, p, x))
  {
    var q := Tilt(a, p, x);
    var gains, limits := Accounts(ln, a, p, x, r, q);
    Dominated(ln, sqrt, a, p, x, r, q, gains, limits);
  }
}
