/** The time control between client and server: printed by fastchess_tc (client/runner.cpp), parsed by
    parse_tc (server/spec.cpp). Decimals are exact. */
module TimeControl {
  import opened Schema
  import opened GameText
  import opened Vectors

  // ---------------------------------------------------------------------------
  // Printing
  // ---------------------------------------------------------------------------

  function Digit(d: nat): char
    requires d < 10
  {
    '0' + d as char
  }

  /** A number in decimal. */
  function Decimal(n: nat): (s: string)
    ensures s != "" && AllOf(s, IsDigit)
  {
    if n < 10 then [Digit(n)] else Decimal(n / 10) + [Digit(n % 10)]
  }

  /** The digits of ms thousandths: the whole seconds and the three places. */
  function Whole(ms: nat): nat { ms / 10 / 10 / 10 }
  function Tenths(ms: nat): nat { ms / 10 / 10 % 10 }
  function Hundredths(ms: nat): nat { ms / 10 % 10 }
  function Thousandths(ms: nat): nat { ms % 10 }

  lemma DigitsOf(ms: nat)
    ensures ms == 10 * (10 * (10 * Whole(ms) + Tenths(ms)) + Hundredths(ms)) + Thousandths(ms)
  {
    var h := ms / 10;
    var g := h / 10;
    assert ms == 10 * h + ms % 10 && h == 10 * g + h % 10 && g == 10 * (g / 10) + g % 10;
  }

  /** printf("%.3f") of ms thousandths. */
  function Fixed(ms: nat): string {
    Decimal(Whole(ms)) + "." + [Digit(Tenths(ms)), Digit(Hundredths(ms)), Digit(Thousandths(ms))]
  }

  /** Without trailing zeros, and without a point that would end it. */
  function Seconds(ms: nat): string {
    var whole := Decimal(Whole(ms));
    var a, b, c := Digit(Tenths(ms)), Digit(Hundredths(ms)), Digit(Thousandths(ms));
    if Thousandths(ms) != 0 then whole + "." + [a, b, c]
    else if Hundredths(ms) != 0 then whole + "." + [a, b]
    else if Tenths(ms) != 0 then whole + "." + [a]
    else whole
  }

  /** How many characters the stripping leaves, the point included. */
  function Keep(ms: nat): nat {
    |Decimal(Whole(ms))| + if Thousandths(ms) != 0 then 4 else if Hundredths(ms) != 0 then 3 else if Tenths(ms) != 0 then 2 else 1
  }

  /** The lambda of fastchess_tc. */
  method PrintSeconds(ms: nat) returns (s: string)
    ensures s == Seconds(ms)
  {
    s := Fixed(ms);
    ghost var keep := Keep(ms);
    FixedShape(ms);
    while s[|s| - 1] == '0'
      invariant keep <= |s| <= |Fixed(ms)| && s == Fixed(ms)[..|s|]
      decreases |s|
    {
      s := s[..|s| - 1];
    }
    assert |s| == keep;
    if s[|s| - 1] == '.' {
      s := s[..|s| - 1];
    }
  }

  lemma FixedShape(ms: nat)
    ensures 1 <= Keep(ms) <= |Fixed(ms)| && Fixed(ms)[Keep(ms) - 1] != '0'
    ensures forall i | Keep(ms) <= i < |Fixed(ms)| :: Fixed(ms)[i] == '0'
    ensures Seconds(ms) == Fixed(ms)[..if Fixed(ms)[Keep(ms) - 1] == '.' then Keep(ms) - 1 else Keep(ms)]
  {
    var whole, s := Decimal(Whole(ms)), Fixed(ms);
    var w := |whole|;
    assert s[w] == '.' && s[w + 1] == Digit(Tenths(ms)) && s[w + 2] == Digit(Hundredths(ms)) && s[w + 3] == Digit(Thousandths(ms));
    assert s[..w] == whole && s[..w + 2] == whole + "." + [s[w + 1]];
    assert s[..w + 3] == whole + "." + [s[w + 1], s[w + 2]] && s[..w + 4] == s;
  }

  /** An engine's time control in milliseconds. */
  datatype Tc = Tc(baseMs: nat, incrementMs: nat)

  function Print(tc: Tc): string { Seconds(tc.baseMs) + "+" + Seconds(tc.incrementMs) }

  /** fastchess_tc */
  method FastchessTc(tc: Tc) returns (s: string)
    ensures s == Print(tc)
  {
    var base := PrintSeconds(tc.baseMs);
    var inc := PrintSeconds(tc.incrementMs);
    s := base + "+" + inc;
  }

  // ---------------------------------------------------------------------------
  // Parsing
  // ---------------------------------------------------------------------------

  function Pow10(n: nat): (r: nat)
    ensures r >= 1
  {
    if n == 0 then 1 else 10 * Pow10(n - 1)
  }

  /** digits / 10^places */
  datatype Number = Number(digits: nat, places: nat)

  /** parse_seconds: digits with at most one point and at least one digit; None where it throws. */
  function ParseSeconds(s: string): Option<Number> {
    var i := RunEnd(s, 0, IsDigit);
    if i == |s| then
      if s == "" then None else Some(Number(Value(s), 0))
    else if s[i] != '.' then None
    else
      var rest := s[i + 1..];
      if !AllOf(rest, IsDigit) || (i == 0 && rest == "") then None
      else
        assert forall k | 0 <= k < i :: s[..i][k] == s[k];
        Some(Number(Value(s[..i] + rest), |rest|))
  }

  lemma Nonnegative(n: real, d: real)
    requires n >= 0.0 && d > 0.0
    ensures n / d >= 0.0
  {
  }

  /** llround of the milliseconds: halves go up. */
  function Rounded(x: Number): nat {
    Nonnegative((1000 * x.digits) as real, Pow10(x.places) as real);
    ((1000 * x.digits) as real / Pow10(x.places) as real + 0.5).Floor
  }

  const MAX_BASE_MS: nat := 24 * 3600 * 1000
  const MAX_INCREMENT_MS: nat := 3600 * 1000

  /** parse_tc; None where it throws. */
  function ParseTc(s: string): Option<Tc> {
    var plus := RunEnd(s, 0, c => c != '+');
    var base := ParseSeconds(s[..plus]);
    var inc := if plus == |s| then Some(Number(0, 0)) else ParseSeconds(s[plus + 1..]);
    if base.None? || inc.None? then None
    else
      var baseMs, incMs := Rounded(base.value), Rounded(inc.value);
      if baseMs == 0 || baseMs > MAX_BASE_MS || incMs > MAX_INCREMENT_MS then None
      else Some(Tc(baseMs, incMs))
  }

  // ---------------------------------------------------------------------------
  // Round trip
  // ---------------------------------------------------------------------------

  lemma {:induction false} DecimalValue(n: nat)
    ensures Value(Decimal(n)) == n
    decreases n
  {
    if n >= 10 {
      DecimalValue(n / 10);
      assert Decimal(n)[..|Decimal(n)| - 1] == Decimal(n / 10);
    } else {
      assert Value("") == 0;
      assert Decimal(n)[..0] == "";
    }
  }

  lemma ValueAppend(s: string, d: nat)
    requires AllOf(s, IsDigit) && d < 10
    ensures AllOf(s + [Digit(d)], IsDigit) && Value(s + [Digit(d)]) == 10 * Value(s) + d
  {
    assert (s + [Digit(d)])[..|s|] == s;
  }

  /** Parsing digits, a point and more digits. */
  lemma ParsePoint(whole: string, rest: string)
    requires whole != "" && AllOf(whole, IsDigit) && AllOf(rest, IsDigit)
    ensures AllOf(whole + rest, IsDigit)
    ensures ParseSeconds(whole + "." + rest) == Some(Number(Value(whole + rest), |rest|))
  {
    var s := whole + "." + rest;
    assert forall k | 0 <= k < |whole| :: s[k] == whole[k];
    assert s[|whole|] == '.';
    assert RunEnd(s, 0, IsDigit) == |whole|;
    assert s[..|whole|] == whole && s[|whole| + 1..] == rest;
  }

  lemma ExactQuotient(n: real, d: real, q: real)
    requires d > 0.0 && n == q * d
    ensures n / d == q
  {
    SameQuotient(n / d, q, d);
  }

  lemma RoundedExact(x: Number, ms: nat)
    requires 1000 * x.digits == ms * Pow10(x.places)
    ensures Rounded(x) == ms
  {
    var p := Pow10(x.places);
    RealProduct(ms, p);
    ExactQuotient((1000 * x.digits) as real, p as real, ms as real);
    assert (ms as real + 0.5).Floor == ms;
  }

  lemma Quotient(n: real, d: real)
    requires d > 0.0
    ensures n / d * d == n
  {
  }

  /** The milliseconds are the nearest whole number, halves going up. */
  lemma RoundedIsNearest(x: Number)
    ensures var ones := Pow10(x.places); 0 < ones + 2 * (Rounded(x) * ones - 1000 * x.digits) <= 2 * ones
  {
    var k, ones := Rounded(x), Pow10(x.places);
    var n, d := (1000 * x.digits) as real, ones as real;
    var q := n / d;
    Quotient(n, d);
    RealProduct(k, ones);
    ScaledFloor(q, d, k, k as real * d, n);
    WholeNumbers(k * ones, 1000 * x.digits, ones, k as real * d, n, d);
  }

  lemma Places()
    ensures Pow10(0) == 1 && Pow10(1) == 10 && Pow10(2) == 100 && Pow10(3) == 1000
  {
    assert Pow10(1) == 10 * Pow10(0);
    assert Pow10(2) == 10 * Pow10(1);
    assert Pow10(3) == 10 * Pow10(2);
  }

  /** Reading w, a point and the places f gives w.f exactly. */
  lemma PointRoundTrip(whole: string, places: string, ms: nat)
    requires whole != "" && AllOf(whole, IsDigit) && AllOf(places, IsDigit) && AllOf(whole + places, IsDigit)
    requires 1000 * Value(whole + places) == ms * Pow10(|places|)
    ensures ReadsBack(whole + "." + places, ms)
  {
    ParsePoint(whole, places);
    RoundedExact(Number(Value(whole + places), |places|), ms);
    assert forall i | 0 <= i < |places| :: IsDigit(places[i]);
    assert forall i | 0 <= i < |whole| :: IsDigit(whole[i]);
  }

  ghost predicate ReadsBack(s: string, ms: nat) {
    && ParseSeconds(s).Some? && Rounded(ParseSeconds(s).value) == ms
    && forall i | 0 <= i < |s| :: s[i] != '+'
  }

  lemma WholeRoundTrip(whole: string, ms: nat)
    requires whole != "" && AllOf(whole, IsDigit) && 1000 * Value(whole) == ms
    ensures ReadsBack(whole, ms)
  {
    assert RunEnd(whole, 0, IsDigit) == |whole|;
    RoundedExact(Number(Value(whole), 0), ms);
  }

  /** Printed seconds are read back exactly. */
  lemma SecondsRoundTrip(ms: nat)
    ensures ReadsBack(Seconds(ms), ms)
  {
    var whole := Decimal(Whole(ms));
    var a, b, c := Tenths(ms), Hundredths(ms), Thousandths(ms);
    DecimalValue(Whole(ms));
    DigitsOf(ms);
    Places();
    ValueAppend(whole, a);
    ValueAppend(whole + [Digit(a)], b);
    ValueAppend(whole + [Digit(a)] + [Digit(b)], c);
    if c != 0 {
      assert whole + [Digit(a), Digit(b), Digit(c)] == whole + [Digit(a)] + [Digit(b)] + [Digit(c)];
      PointRoundTrip(whole, [Digit(a), Digit(b), Digit(c)], ms);
    } else if b != 0 {
      assert whole + [Digit(a), Digit(b)] == whole + [Digit(a)] + [Digit(b)];
      PointRoundTrip(whole, [Digit(a), Digit(b)], ms);
    } else if a != 0 {
      PointRoundTrip(whole, [Digit(a)], ms);
    } else {
      WholeRoundTrip(whole, ms);
    }
  }

  /** A printed time control is read back exactly if it is in range, and refused otherwise. */
  lemma TcRoundTrip(tc: Tc)
    ensures ParseTc(Print(tc)) == if 1 <= tc.baseMs <= 86_400_000 && tc.incrementMs <= 3_600_000 then Some(tc) else None
  {
    var base, inc := Seconds(tc.baseMs), Seconds(tc.incrementMs);
    SecondsRoundTrip(tc.baseMs);
    SecondsRoundTrip(tc.incrementMs);
    var s := Print(tc);
    assert forall k | 0 <= k < |base| :: s[k] == base[k];
    assert s[|base|] == '+';
    assert RunEnd(s, 0, c => c != '+') == |base|;
    assert s[..|base|] == base && s[|base| + 1..] == inc;
  }
}
