/** The regular expressions of client/pgn.cpp and the number formats beside them, as languages, and that the
    hand-written matchers find what they describe. */
module Patterns {
  import opened Schema
  import opened GameText
  import opened TimeControl
  import opened Usage
  import opened Movetext

  // ---------------------------------------------------------------------------
  // Tag lines
  // ---------------------------------------------------------------------------

  /** \w, \s and \d in the C locale, by their codes. */
  lemma ClassesAre(c: char)
    ensures var code := c as int;
            && (IsWord(c) <==> 97 <= code <= 122 || 65 <= code <= 90 || 48 <= code <= 57 || code == 95)
            && (IsSpace(c) <==> code == 32 || 9 <= code <= 13)
            && (IsDigit(c) <==> 48 <= code <= 57)
  {
  }

  /** Characters other than quotes and backslashes, and pairs of a backslash and anything but a line end. */
  predicate IsQuoted(v: string)
    decreases |v|
  {
    || v == ""
    || (v[0] != '"' && v[0] != '\\' && IsQuoted(v[1..]))
    || (v[0] == '\\' && |v| >= 2 && v[1] != '\n' && v[1] != '\r' && IsQuoted(v[2..]))
  }

  lemma {:induction false} QuoteEndIff(s: string, i: nat, j: nat)
    requires i <= |s|
    ensures QuoteEnd(s, i) == Some(j) <==> i <= j < |s| && s[j] == '"' && IsQuoted(s[i..j])
    decreases |s| - i
  {
    if i < |s| && s[i] != '"' {
      var step := if s[i] == '\\' then 2 else 1;
      if i + step <= |s| {
        QuoteEndIff(s, i + step, j);
        assert i + step <= j < |s| ==> s[i..j][step..] == s[i + step..j];
      }
    }
  }

  /** The line is a tag: the places where its name ends, its value is opened and its value is closed. */
  ghost predicate TagAt(line: string, a: nat, q: nat, c: nat) {
    && 1 < a < q < c && c + 1 < |line| && line[0] == '[' && line[q] == '"' && line[c] == '"' && line[c + 1] == ']'
    && AllOf(line[1..a], IsWord) && AllOf(line[a..q], IsSpace) && IsQuoted(line[q + 1..c]) && AllOf(line[c + 2..], IsSpace)
  }

  lemma TagAtIsRead(line: string, a: nat, q: nat, c: nat)
    requires TagAt(line, a, q, c)
    ensures TagLine(line) == Some((line[1..a], line[q + 1..c]))
  {
    assert IsSpace(line[a]) by {
      assert line[a..q][0] == line[a];
    }
    RunIs(line, 1, a, IsWord);
    RunIs(line, a, q, IsSpace);
    QuoteEndIff(line, q + 1, c);
    assert line[c + 2..|line|] == line[c + 2..];
    RunIs(line, c + 2, |line|, IsSpace);
  }

  lemma TagIsSomewhere(line: string) returns (a: nat, q: nat, c: nat)
    requires TagLine(line).Some?
    ensures TagAt(line, a, q, c) && TagLine(line) == Some((line[1..a], line[q + 1..c]))
  {
    a := RunEnd(line, 1, IsWord);
    q := RunEnd(line, a, IsSpace);
    c := QuoteEnd(line, q + 1).value;
    QuoteEndIff(line, q + 1, c);
    assert line[c + 2..|line|] == line[c + 2..];
  }

  /** A tag's text: bracket, name, spaces, quoted value, bracket, spaces. */
  ghost predicate IsTag(line: string, name: string, value: string, gap: string, trail: string) {
    && name != "" && AllOf(name, IsWord) && gap != "" && AllOf(gap, IsSpace) && IsQuoted(value) && AllOf(trail, IsSpace)
    && line == "[" + name + gap + "\"" + value + "\"]" + trail
  }

  lemma TagPlaces(line: string, name: string, value: string, gap: string, trail: string, a: nat, q: nat, c: nat)
    requires IsTag(line, name, value, gap, trail)
    requires a == 1 + |name| && q == a + |gap| && c == q + 1 + |value|
    ensures TagAt(line, a, q, c) && line[1..a] == name && line[q + 1..c] == value
  {
    assert line[1..a] == name && line[a..q] == gap && line[q + 1..c] == value && line[c + 2..] == trail;
  }

  lemma TagIsRead(line: string, name: string, value: string, gap: string, trail: string)
    requires IsTag(line, name, value, gap, trail)
    ensures TagLine(line) == Some((name, value))
  {
    var a, q := 1 + |name|, 1 + |name| + |gap|;
    TagPlaces(line, name, value, gap, trail, a, q, q + 1 + |value|);
    TagAtIsRead(line, a, q, q + 1 + |value|);
  }

  lemma ReadIsTag(line: string) returns (gap: string, trail: string)
    requires TagLine(line).Some?
    ensures IsTag(line, TagLine(line).value.0, TagLine(line).value.1, gap, trail)
  {
    var a, q, c := TagIsSomewhere(line);
    gap, trail := line[a..q], line[c + 2..];
    PlacesMakeUp(line, a, q, c);
  }

  lemma PlacesMakeUp(line: string, a: nat, q: nat, c: nat)
    requires TagAt(line, a, q, c)
    ensures line == "[" + line[1..a] + line[a..q] + "\"" + line[q + 1..c] + "\"]" + line[c + 2..]
  {
    assert line[..a] == "[" + line[1..a];
    assert line[..q + 1] == line[..a] + line[a..q] + "\"";
    assert line[..c + 2] == line[..q + 1] + line[q + 1..c] + "\"]";
    assert line == line[..c + 2] + line[c + 2..];
  }

  /** A line is read as a tag exactly if the expression matches the whole of it, with these two groups. */
  lemma TagLineIff(line: string, name: string, value: string)
    ensures TagLine(line) == Some((name, value)) <==> exists gap, trail :: IsTag(line, name, value, gap, trail)
  {
    if TagLine(line) == Some((name, value)) {
      var gap, trail := ReadIsTag(line);
    }
    if gap, trail :| IsTag(line, name, value, gap, trail) {
      TagIsRead(line, name, value, gap, trail);
    }
  }

  /** Lines, each with its line end. */
  function Ended(lines: seq<string>, lineEnd: string): string {
    if lines == [] then "" else lines[0] + lineEnd + Ended(lines[1..], lineEnd)
  }

  predicate IsLine(line: string) {
    AllOf(line, c => c != '\n') && (line != "" ==> line[|line| - 1] != '\r')
  }

  lemma WindowsLine(line: string, rest: string)
    requires IsLine(line)
    ensures Lines(line + "\r\n" + rest) == [line + "\r"] + Lines(rest)
  {
    var longer := line + "\r";
    assert AllOf(longer, c => c != '\n');
    LinesCons(longer, rest);
    assert line + "\r\n" + rest == longer + "\n" + rest;
  }

  lemma Dropped(line: string)
    requires IsLine(line)
    ensures DropCr(line + "\r") == line && DropCr(line) == line
  {
  }

  lemma TagsFromCons(first: string, rest: seq<string>, tags: map<string, string>)
    ensures TagsFrom([first] + rest, tags) ==
              match TagLine(DropCr(first))
              case Some((name, value)) => TagsFrom(rest, tags[name := value])
              case None => if DropCr(first) != "" && DropCr(first)[0] != '[' then tags else TagsFrom(rest, tags)
  {
    assert ([first] + rest)[1..] == rest;
  }

  /** A game with Windows line ends has the tags it has without. */
  lemma {:induction false} LineEndsDoNotMatter(lines: seq<string>, tags: map<string, string>)
    requires forall i | 0 <= i < |lines| :: IsLine(lines[i])
    ensures TagsFrom(Lines(Ended(lines, "\r\n")), tags) == TagsFrom(Lines(Ended(lines, "\n")), tags)
    decreases |lines|
  {
    if lines != [] {
      var line, windows, unix := lines[0], Ended(lines[1..], "\r\n"), Ended(lines[1..], "\n");
      WindowsLine(line, windows);
      LinesCons(line, unix);
      Dropped(line);
      TagsFromCons(line + "\r", Lines(windows), tags);
      TagsFromCons(line, Lines(unix), tags);
      var tag := TagLine(line);
      LineEndsDoNotMatter(lines[1..], if tag.Some? then tags[tag.value.0 := tag.value.1] else tags);
    }
  }

  // ---------------------------------------------------------------------------
  // std::stoi
  // ---------------------------------------------------------------------------

  /** White space, a sign or none, digits, and what comes after them. */
  ghost predicate IsInteger(s: string, blank: string, sign: string, digits: string, rest: string) {
    && AllOf(blank, IsSpace) && (sign == "" || sign == "+" || sign == "-") && digits != "" && AllOf(digits, IsDigit)
    && (rest == "" || !IsDigit(rest[0])) && s == blank + sign + digits + rest
  }

  function SignedBy(sign: string, magnitude: int): int { if sign == "-" then -magnitude else magnitude }

  ghost predicate ReadsAs(s: string, v: int, blank: string, sign: string, digits: string, rest: string) {
    && IsInteger(s, blank, sign, digits, rest)
    && v == SignedBy(sign, Value(digits))
    && -2_147_483_648 <= v <= 2_147_483_647
  }

  lemma IntegerIsRead(s: string, v: int, blank: string, sign: string, digits: string, rest: string)
    requires ReadsAs(s, v, blank, sign, digits, rest)
    ensures Stoi(s) == Some(v)
  {
    var b, d := |blank|, |blank| + |sign|;
    assert s[0..b] == blank && s[d..d + |digits|] == digits;
    assert s[b] == if sign == "" then digits[0] else sign[0];
    RunIs(s, 0, b, IsSpace);
    assert d + |digits| < |s| ==> s[d + |digits|] == rest[0];
    RunIs(s, d, d + |digits|, IsDigit);
  }

  lemma InFour(s: string, b: nat, d: nat, e: nat)
    requires b <= d <= e <= |s|
    ensures s == s[..b] + s[b..d] + s[d..e] + s[e..]
  {
  }

  /** The number taken apart: where the white space, the sign and the digits end. */
  lemma StoiParts(s: string) returns (b: nat, d: nat, e: nat)
    requires Stoi(s).Some?
    ensures b <= d < e <= |s| && d <= b + 1 && (forall i | 0 <= i < b :: IsSpace(s[i])) && (e < |s| ==> !IsDigit(s[e]))
    ensures (forall i | d <= i < e :: IsDigit(s[i])) && (d == b + 1 ==> s[b] == '+' || s[b] == '-')
    ensures Stoi(s).value == SignedBy(s[b..d], Value(Slice(s, d, e))) && -2_147_483_648 <= Stoi(s).value <= 2_147_483_647
  {
    b := RunEnd(s, 0, IsSpace);
    d := if b < |s| && (s[b] == '-' || s[b] == '+') then b + 1 else b;
    e := RunEnd(s, d, IsDigit);
    assert if d == b then s[b..d] == "" else s[b..d] == [s[b]];
  }

  lemma ReadIsInteger(s: string, v: int) returns (blank: string, sign: string, digits: string, rest: string)
    requires Stoi(s) == Some(v)
    ensures ReadsAs(s, v, blank, sign, digits, rest)
  {
    var b, d, e := StoiParts(s);
    blank, sign, digits, rest := s[..b], s[b..d], Slice(s, d, e), s[e..];
    InFour(s, b, d, e);
    assert if d == b then sign == "" else sign == [s[b]];
  }

  /** A text is read as an int exactly if it begins, after white space, with one that fits. */
  lemma StoiIff(s: string, v: int)
    ensures Stoi(s) == Some(v) <==> exists blank, sign, digits, rest :: ReadsAs(s, v, blank, sign, digits, rest)
  {
    if Stoi(s) == Some(v) {
      var blank, sign, digits, rest := ReadIsInteger(s, v);
    }
    if blank, sign, digits, rest :| ReadsAs(s, v, blank, sign, digits, rest) {
      IntegerIsRead(s, v, blank, sign, digits, rest);
    }
  }

  // ---------------------------------------------------------------------------
  // Nodes and seconds in a comment
  // ---------------------------------------------------------------------------

  /** \b: a word character on one side only. */
  predicate Boundary(s: string, i: nat)
    requires i <= |s|
  {
    (i > 0 && IsWord(s[i - 1])) != (i < |s| && IsWord(s[i]))
  }

  /** The first expression matches s[k..e]. */
  ghost predicate NodesMatch(s: string, k: nat, e: nat) {
    k + 2 < e <= |s| && Boundary(s, k) && s[k] == 'n' && s[k + 1] == '=' && forall i | k + 2 <= i < e :: IsDigit(s[i])
  }

  /** The match a search finds: the first, and the longest of those. */
  ghost predicate FoundNodes(s: string, k: nat, e: nat) {
    && NodesMatch(s, k, e)
    && (forall j: nat, f: nat | NodesMatch(s, j, f) :: k <= j)
    && (forall f: nat | NodesMatch(s, k, f) :: f <= e)
  }

  /** digits, or digits, a point and digits. */
  ghost predicate IsTime(t: string, x: Number) {
    || (IsNumber(t) && x == Number(Value(t), 0))
    || exists w: nat :: 0 < w < |t| - 1 && PointAt(t, w, x)
  }

  ghost predicate PointAt(t: string, w: nat, x: Number) {
    && w < |t| && t[w] == '.' && AllOf(t[..w], IsDigit) && AllOf(t[w + 1..], IsDigit)
    && AllOf(t[..w] + t[w + 1..], IsDigit) && x == Number(Value(t[..w] + t[w + 1..]), |t| - w - 1)
  }

  /** The second expression matches s[k..e], its group reading x. */
  ghost predicate TimeMatch(s: string, k: nat, e: nat, x: Number) {
    k + 2 < e <= |s| && IsSpace(s[k]) && s[e - 1] == 's' && Boundary(s, e) && IsTime(s[k + 1..e - 1], x)
  }

  ghost predicate FoundTime(s: string, k: nat, e: nat, x: Number) {
    TimeMatch(s, k, e, x) && forall j: nat, f: nat, y | TimeMatch(s, j, f, y) :: k <= j
  }

  lemma NodesAtMatches(s: string, k: nat) returns (e: nat)
    requires NodesAt(s, k).Some?
    ensures NodesMatch(s, k, e) && NodesAt(s, k) == Some(Value(Slice(s, k + 2, e))) && (e < |s| ==> !IsDigit(s[e]))
  {
    e := RunEnd(s, k + 2, IsDigit);
  }

  lemma MatchIsNodesAt(s: string, k: nat, e: nat)
    requires NodesMatch(s, k, e)
    ensures NodesAt(s, k).Some?
  {
  }

  lemma {:induction false} NoNodes(s: string, k: nat)
    requires FirstNodes(s, k).None?
    ensures forall j: nat | k <= j :: NodesAt(s, j).None?
    decreases |s| - k
  {
    if k < |s| {
      NoNodes(s, k + 1);
    }
  }

  lemma {:induction false} NodesSomewhere(s: string, k: nat) returns (p: nat)
    requires FirstNodes(s, k).Some?
    ensures k <= p < |s| && NodesAt(s, p) == FirstNodes(s, k) && forall j: nat | k <= j < p :: NodesAt(s, j).None?
    decreases |s| - k
  {
    if NodesAt(s, k).Some? {
      p := k;
    } else {
      p := NodesSomewhere(s, k + 1);
    }
  }

  lemma LongestNodes(s: string, k: nat, e: nat, f: nat)
    requires NodesMatch(s, k, e) && NodesMatch(s, k, f) && (e < |s| ==> !IsDigit(s[e]))
    ensures f <= e
  {
  }

  lemma FirstNodesFound(s: string, p: nat, e: nat)
    requires NodesMatch(s, p, e) && (e < |s| ==> !IsDigit(s[e])) && forall j: nat | j < p :: NodesAt(s, j).None?
    ensures FoundNodes(s, p, e)
  {
    forall j: nat, f: nat | NodesMatch(s, j, f) ensures p <= j {
      MatchIsNodesAt(s, j, f);
    }
    forall f: nat | NodesMatch(s, p, f) ensures f <= e {
      LongestNodes(s, p, e, f);
    }
  }

  /** A comment's nodes are those of the match the search finds, and there are none without a match. */
  lemma FirstNodesIff(s: string, v: nat)
    ensures FirstNodes(s, 0) == Some(v) <==> exists k: nat, e: nat :: FoundNodes(s, k, e) && v == Value(Slice(s, k + 2, e))
  {
    if FirstNodes(s, 0).Some? {
      var p := NodesSomewhere(s, 0);
      var e := NodesAtMatches(s, p);
      FirstNodesFound(s, p, e);
      forall k: nat, f: nat | FoundNodes(s, k, f) ensures k == p && f == e {
      }
    } else {
      NoNodes(s, 0);
      forall k: nat, e: nat | NodesMatch(s, k, e) ensures false {
        MatchIsNodesAt(s, k, e);
      }
    }
  }

  lemma PlainTime(s: string, k: nat, e: nat)
    requires k + 2 < e <= |s| && IsSpace(s[k]) && s[e - 1] == 's' && Boundary(s, e) && IsNumber(s[k + 1..e - 1])
    ensures SecondsAt(s, k) == Some(Number(Value(s[k + 1..e - 1]), 0))
  {
    RunIs(s, k + 1, e - 1, IsDigit);
  }

  lemma PointInside(s: string, k: nat, e: nat, w: nat, x: Number)
    requires k + 2 < e <= |s| && 0 < w < e - k - 3 && PointAt(s[k + 1..e - 1], w, x)
    ensures var p := k + 1 + w;
            && s[p] == '.' && (forall i | k + 1 <= i < p :: IsDigit(s[i])) && (forall i | p + 1 <= i < e - 1 :: IsDigit(s[i]))
            && x == Number(Value(Slice(s, k + 1, p) + Slice(s, p + 1, e - 1)), e - p - 2)
  {
    var t, p := s[k + 1..e - 1], k + 1 + w;
    assert s[p] == t[w] && t[..w] == s[k + 1..p] && t[w + 1..] == s[p + 1..e - 1];
    assert forall i | k + 1 <= i < p :: s[i] == t[..w][i - k - 1];
    assert forall i | p + 1 <= i < e - 1 :: s[i] == t[w + 1..][i - p - 1];
  }

  lemma MatchIsSecondsAt(s: string, k: nat, e: nat, x: Number)
    requires TimeMatch(s, k, e, x)
    ensures SecondsAt(s, k) == Some(x)
  {
    var t := s[k + 1..e - 1];
    if IsNumber(t) && x == Number(Value(t), 0) {
      PlainTime(s, k, e);
    } else {
      var w: nat :| 0 < w < |t| - 1 && PointAt(t, w, x);
      PointInside(s, k, e, w, x);
      PointTime(s, k, k + 1 + w, e);
    }
  }

  lemma PointMatches(s: string, k: nat, p: nat, e: nat)
    requires k + 1 < p && p + 2 < e <= |s| && IsSpace(s[k]) && s[p] == '.' && s[e - 1] == 's' && Boundary(s, e)
    requires (forall i | k + 1 <= i < p :: IsDigit(s[i])) && (forall i | p + 1 <= i < e - 1 :: IsDigit(s[i]))
    ensures TimeMatch(s, k, e, Number(Value(Slice(s, k + 1, p) + Slice(s, p + 1, e - 1)), e - p - 2))
  {
    var t, w := s[k + 1..e - 1], p - k - 1;
    assert t[w] == '.' && t[..w] == Slice(s, k + 1, p) && t[w + 1..] == Slice(s, p + 1, e - 1);
    assert PointAt(t, w, Number(Value(Slice(s, k + 1, p) + Slice(s, p + 1, e - 1)), e - p - 2));
  }

  /** The time at k, taken apart: p is where the whole digits end. */
  lemma SecondsParts(s: string, k: nat) returns (p: nat, e: nat)
    requires SecondsAt(s, k).Some?
    ensures k + 1 < p < |s| && IsSpace(s[k]) && (forall i | k + 1 <= i < p :: IsDigit(s[i])) && p < e <= |s|
    ensures s[e - 1] == 's' && (e < |s| ==> !IsWord(s[e]))
    ensures s[p] == '.' ==> p + 2 < e && (forall i | p + 1 <= i < e - 1 :: IsDigit(s[i]))
    ensures s[p] == '.' ==> SecondsAt(s, k) == Some(Number(Value(Slice(s, k + 1, p) + Slice(s, p + 1, e - 1)), e - p - 2))
    ensures s[p] != '.' ==> e == p + 1 && SecondsAt(s, k) == Some(Number(Value(Slice(s, k + 1, p)), 0))
  {
    p := RunEnd(s, k + 1, IsDigit);
    e := if s[p] == '.' then RunEnd(s, p + 1, IsDigit) + 1 else p + 1;
  }

  lemma SecondsAtMatches(s: string, k: nat) returns (e: nat)
    requires SecondsAt(s, k).Some?
    ensures TimeMatch(s, k, e, SecondsAt(s, k).value)
  {
    var p;
    p, e := SecondsParts(s, k);
    if s[p] == '.' {
      PointMatches(s, k, p, e);
    } else {
      PlainMatches(s, k, e);
    }
  }

  lemma PlainMatches(s: string, k: nat, e: nat)
    requires k + 2 < e <= |s| && IsSpace(s[k]) && s[e - 1] == 's' && Boundary(s, e)
    requires forall i | k + 1 <= i < e - 1 :: IsDigit(s[i])
    ensures TimeMatch(s, k, e, Number(Value(Slice(s, k + 1, e - 1)), 0))
  {
    assert s[k + 1..e - 1] == Slice(s, k + 1, e - 1);
  }

  lemma {:induction false} NoSeconds(s: string, k: nat)
    requires FirstSeconds(s, k).None?
    ensures forall j: nat | k <= j :: SecondsAt(s, j).None?
    decreases |s| - k
  {
    if k < |s| {
      NoSeconds(s, k + 1);
    }
  }

  lemma {:induction false} SecondsSomewhere(s: string, k: nat) returns (p: nat)
    requires FirstSeconds(s, k).Some?
    ensures k <= p < |s| && SecondsAt(s, p) == FirstSeconds(s, k) && forall j: nat | k <= j < p :: SecondsAt(s, j).None?
    decreases |s| - k
  {
    if SecondsAt(s, k).Some? {
      p := k;
    } else {
      p := SecondsSomewhere(s, k + 1);
    }
  }

  /** So are its seconds. */
  lemma FirstSecondsIff(s: string, x: Number)
    ensures FirstSeconds(s, 0) == Some(x) <==> exists k: nat, e: nat :: FoundTime(s, k, e, x)
  {
    if FirstSeconds(s, 0).Some? {
      var p := SecondsSomewhere(s, 0);
      var e := SecondsAtMatches(s, p);
      forall j: nat, f: nat, y | TimeMatch(s, j, f, y) ensures p <= j && (j == p ==> y == SecondsAt(s, p).value) {
        MatchIsSecondsAt(s, j, f, y);
      }
      assert FoundTime(s, p, e, SecondsAt(s, p).value);
    } else {
      NoSeconds(s, 0);
      forall k: nat, e: nat, y | TimeMatch(s, k, e, y) ensures false {
        MatchIsSecondsAt(s, k, e, y);
      }
    }
  }

  // ---------------------------------------------------------------------------
  // parse_seconds
  // ---------------------------------------------------------------------------

  /** digits, or digits around one point, with a digit on one side at least. */
  ghost predicate IsDecimal(s: string, x: Number) {
    || (IsNumber(s) && x == Number(Value(s), 0))
    || (|s| > 1 && exists w: nat :: PointAt(s, w, x))
  }

  /** What parse_seconds accepts, and the number it is. */
  lemma ParseSecondsIff(s: string, x: Number)
    ensures ParseSeconds(s) == Some(x) <==> IsDecimal(s, x)
  {
    var i := RunEnd(s, 0, IsDigit);
    if i < |s| && s[i] == '.' {
      forall w: nat | PointAt(s, w, x) ensures w == i {
        RunIs(s, 0, w, IsDigit);
      }
      assert s[..i] == s[0..i];
      assert ParseSeconds(s) == Some(x) ==> PointAt(s, i, x);
    } else {
      forall w: nat | PointAt(s, w, x) ensures false {
        RunIs(s, 0, w, IsDigit);
      }
    }
  }

  // ---------------------------------------------------------------------------
  // parse_tc and parse_duration
  // ---------------------------------------------------------------------------

  /** The seconds of the base and, after a plus sign, of the increment; none without one. */
  ghost predicate IsTc(s: string, plus: nat, base: Number, increment: Number) {
    if plus < |s| then s[plus] == '+' && IsDecimal(s[..plus], base) && IsDecimal(s[plus + 1..], increment)
    else plus == |s| && IsDecimal(s, base) && increment == Number(0, 0)
  }

  predicate IsDecimalChar(c: char) { IsDigit(c) || c == '.' }

  lemma DecimalChars(s: string, x: Number)
    requires IsDecimal(s, x)
    ensures AllOf(s, IsDecimalChar)
  {
    if w: nat :| PointAt(s, w, x) {
      forall i | 0 <= i < |s| ensures IsDecimalChar(s[i]) {
        assert i < w ==> s[i] == s[..w][i];
        assert i > w ==> s[i] == s[w + 1..][i - w - 1];
      }
    }
  }

  lemma PlusIsFirst(s: string, plus: nat, base: Number, increment: Number)
    requires IsTc(s, plus, base, increment)
    ensures RunEnd(s, 0, c => c != '+') == plus
  {
    assert s[..|s|] == s;
    DecimalChars(s[..plus], base);
    assert forall i | 0 <= i < plus :: s[i] == s[..plus][i] && s[i] != '+';
  }

  /** What parse_tc takes the text apart into. */
  lemma TcParts(s: string, base: Number, increment: Number)
    ensures var p := RunEnd(s, 0, c => c != '+');
            IsTc(s, p, base, increment) <==>
              && ParseSeconds(s[..p]) == Some(base)
              && (if p == |s| then increment == Number(0, 0) else ParseSeconds(s[p + 1..]) == Some(increment))
  {
    var p := RunEnd(s, 0, c => c != '+');
    assert s[..|s|] == s;
    ParseSecondsIff(s[..p], base);
    if p < |s| {
      ParseSecondsIff(s[p + 1..], increment);
    }
  }

  predicate InRange(tc: Tc) { 1 <= tc.baseMs <= 86_400_000 && tc.incrementMs <= 3_600_000 }

  /** The text says this time control. */
  ghost predicate SaysTc(s: string, tc: Tc, plus: nat, base: Number, increment: Number) {
    IsTc(s, plus, base, increment) && Rounded(base) == tc.baseMs && Rounded(increment) == tc.incrementMs
  }

  lemma TcIsRead(s: string, tc: Tc, plus: nat, base: Number, increment: Number)
    requires SaysTc(s, tc, plus, base, increment) && InRange(tc)
    ensures ParseTc(s) == Some(tc)
  {
    PlusIsFirst(s, plus, base, increment);
    TcParts(s, base, increment);
  }

  lemma ReadIsTc(s: string) returns (plus: nat, base: Number, increment: Number)
    requires ParseTc(s).Some?
    ensures InRange(ParseTc(s).value) && SaysTc(s, ParseTc(s).value, plus, base, increment)
  {
    plus := RunEnd(s, 0, c => c != '+');
    base := ParseSeconds(s[..plus]).value;
    increment := if plus == |s| then Number(0, 0) else ParseSeconds(s[plus + 1..]).value;
    TcParts(s, base, increment);
  }

  /** parse_tc accepts exactly such texts whose milliseconds are in range, and no others. */
  lemma ParseTcIff(s: string, tc: Tc)
    ensures ParseTc(s) == Some(tc) <==>
              && 1 <= tc.baseMs <= 86_400_000 && tc.incrementMs <= 3_600_000
              && exists plus: nat, base, increment :: SaysTc(s, tc, plus, base, increment)
  {
    if ParseTc(s) == Some(tc) {
      var plus, base, increment := ReadIsTc(s);
    }
    if plus: nat, base, increment :| SaysTc(s, tc, plus, base, increment) {
      if InRange(tc) {
        TcIsRead(s, tc, plus, base, increment);
      }
    }
  }

  /** Digits, and twice a colon and two digits. */
  ghost predicate DurationText(s: string, hours: string, minutes: string, seconds: string) {
    && IsNumber(hours) && IsNumber(minutes) && IsNumber(seconds) && |minutes| == 2 && |seconds| == 2
    && s == hours + ":" + minutes + ":" + seconds
  }

  lemma DurationParts(s: string)
    requires IsDuration(s)
    ensures var n := |s|; s == s[..n - 6] + ":" + s[n - 5..n - 3] + ":" + s[n - 2..]
  {
    var n := |s|;
    assert s[..n - 3] == s[..n - 6] + ":" + s[n - 5..n - 3];
    assert s == s[..n - 3] + ":" + s[n - 2..];
  }

  lemma DurationPlaced(s: string, hours: string, minutes: string, seconds: string)
    requires DurationText(s, hours, minutes, seconds)
    ensures IsDuration(s)
  {
    var n := |s|;
    assert s[..n - 6] == hours && s[n - 5..n - 3] == minutes && s[n - 2..] == seconds;
  }

  /** A duration is read exactly if the expression matches. */
  lemma DurationIff(s: string)
    ensures IsDuration(s) <==> exists hours, minutes, seconds :: DurationText(s, hours, minutes, seconds)
  {
    var n := |s|;
    if IsDuration(s) {
      DurationParts(s);
      assert DurationText(s, s[..n - 6], s[n - 5..n - 3], s[n - 2..]);
    }
    if hours, minutes, seconds :| DurationText(s, hours, minutes, seconds) {
      DurationPlaced(s, hours, minutes, seconds);
    }
  }
}
