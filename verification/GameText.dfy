/** client/pgn.cpp: reading one game of a PGN. */
module GameText {
  import opened Schema

  // ---------------------------------------------------------------------------
  // Tags
  // ---------------------------------------------------------------------------

  predicate IsWord(c: char) { 'a' <= c <= 'z' || 'A' <= c <= 'Z' || '0' <= c <= '9' || c == '_' }

  predicate IsSpace(c: char) { c == ' ' || '\t' <= c <= '\r' }

  predicate IsDigit(c: char) { '0' <= c <= '9' }

  predicate AllOf(s: string, p: char -> bool) { forall i | 0 <= i < |s| :: p(s[i]) }

  /** The end of the longest run of characters with p that starts at i. */
  function RunEnd(s: string, i: nat, p: char -> bool): (j: nat)
    requires i <= |s|
    ensures i <= j <= |s| && (forall k | i <= k < j :: p(s[k])) && (j < |s| ==> !p(s[j]))
    decreases |s| - i
  {
    if i < |s| && p(s[i]) then RunEnd(s, i + 1, p) else i
  }

  lemma RunIs(s: string, i: nat, j: nat, p: char -> bool)
    requires i <= j <= |s| && AllOf(s[i..j], p) && (j < |s| ==> !p(s[j]))
    ensures RunEnd(s, i, p) == j
  {
    assert forall k | i <= k < j :: s[k] == s[i..j][k - i];
  }

  /** The first quote at or after i that no backslash escapes. */
  function QuoteEnd(s: string, i: nat): (j: Option<nat>)
    requires i <= |s|
    ensures j.Some? ==> i <= j.value < |s| && s[j.value] == '"'
    decreases |s| - i
  {
    if i == |s| then None
    else if s[i] == '"' then Some(i)
    else if s[i] != '\\' then QuoteEnd(s, i + 1)
    else if i + 1 < |s| && s[i + 1] != '\n' && s[i + 1] != '\r' then QuoteEnd(s, i + 2)
    else None
  }

  /** The tag regular expression: [Name "value"], with spaces where \s stands. */
  function TagLine(line: string): Option<(string, string)> {
    if line == "" || line[0] != '[' then None
    else
      var nameEnd := RunEnd(line, 1, IsWord);
      var quote := RunEnd(line, nameEnd, IsSpace);
      if nameEnd == 1 || quote == nameEnd || quote == |line| || line[quote] != '"' then None
      else match QuoteEnd(line, quote + 1)
        case None => None
        case Some(close) =>
          if close + 1 < |line| && line[close + 1] == ']' && RunEnd(line, close + 2, IsSpace) == |line|
          then Some((line[1..nameEnd], line[quote + 1..close]))
          else None
  }

  function DropCr(line: string): string {
    if line != "" && line[|line| - 1] == '\r' then line[..|line| - 1] else line
  }

  /** std::getline's lines; a last empty one makes no difference to the reader. */
  function Lines(s: string): seq<string>
    decreases |s|
  {
    var end := RunEnd(s, 0, c => c != '\n');
    if end == |s| then [s] else [s[..end]] + Lines(s[end + 1..])
  }

  /** The tags of the lines, later ones first in rank, up to the first line of moves. */
  function TagsFrom(lines: seq<string>, tags: map<string, string>): map<string, string> {
    if lines == [] then tags
    else
      var line := DropCr(lines[0]);
      match TagLine(line)
      case Some((name, value)) => TagsFrom(lines[1..], tags[name := value])
      case None => if line != "" && line[0] != '[' then tags else TagsFrom(lines[1..], tags)
  }

  function TagsOf(game: string): map<string, string> {
    TagsFrom(Lines(game), map[])
  }

  /** tags_of */
  method ReadTags(game: string) returns (tags: map<string, string>)
    ensures tags == TagsOf(game)
  {
    tags := map[];
    var lines := Lines(game);
    var i := 0;
    while i < |lines|
      invariant i <= |lines| && TagsFrom(lines[i..], tags) == TagsOf(game)
    {
      var line := DropCr(lines[i]);
      var tag := TagLine(line);
      if tag.Some? {
        tags := tags[tag.value.0 := tag.value.1];
      } else if line != "" && line[0] != '[' {
        return;
      }
      assert lines[i..][1..] == lines[i + 1..];
      i := i + 1;
    }
  }

  /** A tag as a PGN writer prints it. */
  function PrintTag(name: string, value: string): string {
    "[" + name + " \"" + value + "\"]"
  }

  predicate Plain(value: string) { forall i | 0 <= i < |value| :: value[i] != '"' && value[i] != '\\' }

  lemma {:induction false} QuoteEndIs(s: string, i: nat, j: nat)
    requires i <= j < |s| && s[j] == '"' && forall k | i <= k < j :: s[k] != '"' && s[k] != '\\'
    ensures QuoteEnd(s, i) == Some(j)
    decreases j - i
  {
    if i < j {
      QuoteEndIs(s, i + 1, j);
    }
  }

  /** Reading a printed tag gives it back. */
  lemma ReadPrintedTag(name: string, value: string)
    requires name != "" && AllOf(name, IsWord) && Plain(value)
    ensures TagLine(PrintTag(name, value)) == Some((name, value))
  {
    var line, n := PrintTag(name, value), |name|;
    var close := n + 3 + |value|;
    PrintedTagPlaces(name, value, n, close);
    assert RunEnd(line, 1, IsWord) == n + 1;
    assert RunEnd(line, n + 1, IsSpace) == n + 2;
    QuoteEndIs(line, n + 3, close);
  }

  lemma PrintedTagPlaces(name: string, value: string, n: nat, close: nat)
    requires n == |name| && close == n + 3 + |value|
    ensures var line := PrintTag(name, value);
            && |line| == close + 2 && line[0] == '[' && line[n + 1] == ' ' && line[n + 2] == '"'
            && line[close] == '"' && line[close + 1] == ']' && line[1..n + 1] == name && line[n + 3..close] == value
            && (forall k | 1 <= k <= n :: line[k] == name[k - 1])
            && (forall k | n + 3 <= k < close :: line[k] == value[k - n - 3])
  {
  }

  /** A tag section: printed tags, one a line. */
  function PrintTags(tags: seq<(string, string)>): string {
    if tags == [] then "" else PrintTag(tags[0].0, tags[0].1) + "\n" + PrintTags(tags[1..])
  }

  predicate Printable(tag: (string, string)) {
    tag.0 != "" && AllOf(tag.0, IsWord) && Plain(tag.1) && AllOf(tag.1, c => c != '\n')
  }

  function LastWins(tags: seq<(string, string)>, acc: map<string, string>): map<string, string> {
    if tags == [] then acc else LastWins(tags[1..], acc[tags[0].0 := tags[0].1])
  }

  lemma LinesCons(line: string, rest: string)
    requires AllOf(line, c => c != '\n')
    ensures Lines(line + "\n" + rest) == [line] + Lines(rest)
  {
    var s := line + "\n" + rest;
    assert forall k | 0 <= k < |line| :: s[k] == line[k];
    assert s[|line|] == '\n';
    assert RunEnd(s, 0, c => c != '\n') == |line|;
    assert s[..|line|] == line && s[|line| + 1..] == rest;
  }

  lemma PrintedTagIsOneLine(name: string, value: string)
    requires Printable((name, value))
    ensures AllOf(PrintTag(name, value), c => c != '\n')
    ensures DropCr(PrintTag(name, value)) == PrintTag(name, value)
  {
    var line, n := PrintTag(name, value), |name|;
    forall k | 0 <= k < |line| ensures line[k] != '\n' {
      if 1 <= k <= n {
        assert line[k] == name[k - 1];
      } else if n + 3 <= k < n + 3 + |value| {
        assert line[k] == value[k - n - 3];
      }
    }
  }

  lemma {:induction false} ReadPrintedFrom(tags: seq<(string, string)>, moves: string, acc: map<string, string>)
    requires forall i | 0 <= i < |tags| :: Printable(tags[i])
    requires moves != "" && moves[0] != '[' && !IsSpace(moves[0])
    ensures TagsFrom(Lines(PrintTags(tags) + "\n" + moves), acc) == LastWins(tags, acc)
    decreases |tags|
  {
    if tags == [] {
      assert "" + "\n" + moves == "" + ("\n" + moves);
      LinesCons("", moves);
      assert ([""] + Lines(moves))[1..] == Lines(moves);
      MovesEndTags(moves, acc);
    } else {
      var line := PrintTag(tags[0].0, tags[0].1);
      PrintedTagIsOneLine(tags[0].0, tags[0].1);
      ReadPrintedTag(tags[0].0, tags[0].1);
      var rest := PrintTags(tags[1..]) + "\n" + moves;
      assert PrintTags(tags) + "\n" + moves == line + "\n" + rest;
      LinesCons(line, rest);
      assert ([line] + Lines(rest))[1..] == Lines(rest);
      ReadPrintedFrom(tags[1..], moves, acc[tags[0].0 := tags[0].1]);
    }
  }

  lemma MovesEndTags(moves: string, acc: map<string, string>)
    requires moves != "" && moves[0] != '[' && !IsSpace(moves[0])
    ensures TagsFrom(Lines(moves), acc) == acc
  {
    var first := Lines(moves)[0];
    assert first != "" && first[0] == moves[0];
  }

  /** Reading a printed game gives back its tags; the last value of a repeated name counts. */
  lemma ReadPrintedGame(tags: seq<(string, string)>, moves: string)
    requires forall i | 0 <= i < |tags| :: Printable(tags[i])
    requires moves != "" && moves[0] != '[' && !IsSpace(moves[0])
    ensures TagsOf(PrintTags(tags) + "\n" + moves) == LastWins(tags, map[])
  {
    ReadPrintedFrom(tags, moves, map[]);
  }

  // ---------------------------------------------------------------------------
  // Numbers
  // ---------------------------------------------------------------------------

  const INT32_MAX := 0x7fff_ffff
  const INT64_MAX := 0x7fff_ffff_ffff_ffff

  function Value(digits: string): nat
    requires AllOf(digits, IsDigit)
  {
    if digits == "" then 0 else 10 * Value(digits[..|digits| - 1]) + (digits[|digits| - 1] as int - '0' as int)
  }

  /** std::stoi; None where it throws. */
  function Stoi(s: string): Option<int> {
    var start := RunEnd(s, 0, IsSpace);
    var signed := start < |s| && (s[start] == '-' || s[start] == '+');
    var from := if signed then start + 1 else start;
    var end := RunEnd(s, from, IsDigit);
    if end == from then None
    else
      assert forall k | 0 <= k < end - from :: s[from..end][k] == s[from + k];
      var magnitude: int := Value(s[from..end]);
      var value: int := if signed && s[start] == '-' then -magnitude else magnitude;
      if -INT32_MAX - 1 <= value <= INT32_MAX then Some(value) else None
  }

  /** A long long. */
  type Long = x: int | -INT64_MAX - 1 <= x <= INT64_MAX

  /** What the source leaves to the platform: where signed arithmetic or std::llround goes beyond a long
      long it promises no particular value, and whether std::stod throws for a number too small for a
      normal double depends on the library. */
  datatype Platform = Platform(beyond: int -> Long, refusesTiny: (nat, nat) -> bool)

  /** The long long that exact arithmetic, or going beyond it, leaves. */
  function ToLong(x: int, platform: Platform): Long {
    if -INT64_MAX - 1 <= x <= INT64_MAX then x else platform.beyond(x)
  }

  /** static_cast<int> */
  function ToInt32(x: Long): int {
    if x >= -INT32_MAX - 1 then (if x <= INT32_MAX then x else x - 2 * (INT32_MAX + 1))
    else (x + INT32_MAX + 1) % (2 * (INT32_MAX + 1)) - INT32_MAX - 1
  }

  /** TooLong: std::stoll throws on the hours. */
  datatype Millis = NoMillis | Millis(ms: int) | TooLong

  predicate IsDuration(s: string) {
    var n := |s|;
    && n >= 7 && s[n - 6] == ':' && s[n - 3] == ':'
    && AllOf(s[..n - 6], IsDigit) && AllOf(s[n - 5..n - 3], IsDigit) && AllOf(s[n - 2..], IsDigit)
  }

  /** The milliseconds parse_duration makes of hours, minutes and seconds. */
  function DurationOf(hours: nat, minutes: nat, seconds: nat, platform: Platform): Millis {
    if hours > INT64_MAX then TooLong
    else
      var ms := ToLong((hours * 3600 + minutes * 60 + seconds) * 1000, platform);
      if ms > INT32_MAX then NoMillis else Millis(ToInt32(ms))
  }

  /** parse_duration: hours, then minutes and seconds of two digits each. */
  function ParseDuration(s: string, platform: Platform): Millis {
    if !IsDuration(s) then NoMillis
    else
      var n := |s|;
      DurationOf(Value(s[..n - 6]), Value(s[n - 5..n - 3]), Value(s[n - 2..]), platform)
  }
}
