/** A game as a match writes it down, and that parse_game (client/pgn.cpp) reads it back. */
module Scoresheet {
  import opened Schema
  import opened Pgn
  import opened GameText
  import opened TimeControl
  import opened Usage
  import opened Parsing
  import opened Movetext

  /** Why a game ended, in the words a match has for it; other words are possible. */
  datatype Ending = EndedNormally | Unsaid | OnTime | ByIllegalMove | ByInfraction | ByAdjudication
                  | Abandoned | Stalled | EngineCrashed | Disconnected | Otherwise(words: string)

  function Words(e: Ending): string {
    match e
    case EndedNormally => "normal"
    case Unsaid => ""
    case OnTime => "time forfeit"
    case ByIllegalMove => "illegal move"
    case ByInfraction => "rules infraction"
    case ByAdjudication => "adjudication"
    case Abandoned => "abandoned"
    case Stalled => "stalled connection"
    case EngineCrashed => "crash"
    case Disconnected => "disconnect"
    case Otherwise(words) => words
  }

  /** What the server is told of it. */
  function Told(e: Ending): Termination {
    match e
    case EndedNormally => Normal
    case Unsaid => Normal
    case OnTime => Timeout
    case ByIllegalMove => IllegalMove
    case ByInfraction => IllegalMove
    case ByAdjudication => Adjudication
    case Abandoned => Crash
    case Stalled => Crash
    case EngineCrashed => Crash
    case Disconnected => Crash
    case Otherwise(_) => Other
  }

  /** Other words are none of the known ones. */
  predicate Tellable(e: Ending) {
    e.Otherwise? ==> e.words !in {"normal", "", "time forfeit", "illegal move", "rules infraction", "adjudication",
                                  "abandoned", "stalled connection", "crash", "disconnect"}
  }

  lemma WordsDiffer()
    ensures |"normal"| == 6 && |"time forfeit"| == 12 && |"illegal move"| == 12 && |"rules infraction"| == 16
    ensures |"adjudication"| == 12 && |"abandoned"| == 9 && |"stalled connection"| == 18 && |"crash"| == 5 && |"disconnect"| == 10
    ensures "time forfeit" != "illegal move" && "time forfeit" != "adjudication" && "illegal move" != "adjudication"
  {
    assert "time forfeit"[0] == 't' && "illegal move"[0] == 'i' && "adjudication"[0] == 'a';
  }

  /** Every ending is read back. */
  lemma EndingIsRead(e: Ending)
    requires Tellable(e)
    ensures MapTermination(Words(e)) == Told(e)
  {
    WordsDiffer();
  }

  /** The position a game starts from: where the pieces are, who moves, and whatever else is said. */
  datatype Start = NoFen | Fen(placement: string, blackToMove: bool, rest: string)

  function FenText(start: Start): string {
    match start
    case NoFen => ""
    case Fen(placement, blackToMove, rest) => placement + ((if blackToMove then " b" else " w") + rest)
  }

  predicate WritableStart(start: Start) {
    OneLine(FenText(start)) && (start.Fen? ==> AllOf(start.placement, c => c != ' '))
  }

  predicate BlackStarts(start: Start) { start.Fen? && start.blackToMove }

  /** Whose move it is is read back. */
  lemma SideIsRead(start: Start)
    requires WritableStart(start)
    ensures WhiteFirst(FenText(start)) <==> !BlackStarts(start)
  {
    if start.Fen? {
      var fen, n := FenText(start), |start.placement|;
      assert forall k | 0 <= k < n :: fen[k] == start.placement[k];
      assert fen[n] == ' ' && fen[n + 1] == if start.blackToMove then 'b' else 'w';
      assert RunEnd(fen, 0, c => c != ' ') == n;
    }
  }

  /** Half points for White; None for a game without a result. */
  type Score = h: Option<nat> | h.None? || h.value <= 2 witness None

  /** A whole game: its tags, its moves and the result at the end. */
  datatype Sheet = Sheet(event: string, white: string, black: string, score: Score, start: Start, ending: Ending,
                         plies: nat, hours: nat, minutes: nat, seconds: nat, moves: seq<Move>, last: string)

  predicate OneLine(value: string) { Plain(value) && AllOf(value, c => c != '\n') }

  /** What the moves come to begins like moves. */
  predicate IsMoves(moves: string) { moves != "" && moves[0] != '[' && !IsSpace(moves[0]) }

  predicate Writable(s: Sheet) {
    && OneLine(s.event) && OneLine(s.white) && OneLine(s.black) && WritableStart(s.start)
    && OneLine(Words(s.ending)) && Tellable(s.ending) && s.minutes < 60 && s.seconds < 60
    && WritableMoves(s.moves) && NoBraces(s.last) && IsMoves(PrintMoves(s.moves, s.last))
  }

  function ResultTag(score: Score): string {
    if score.None? then "*" else if score.value == 2 then "1-0" else if score.value == 1 then "1/2-1/2" else "0-1"
  }

  function TwoDigits(n: nat): (s: string)
    requires n < 100
    ensures |s| == 2 && AllOf(s, IsDigit)
  {
    [Digit(n / 10), Digit(n % 10)]
  }

  function DurationTag(hours: nat, minutes: nat, seconds: nat): string
    requires minutes < 60 && seconds < 60
  {
    Decimal(hours) + (":" + TwoDigits(minutes) + ":" + TwoDigits(seconds))
  }

  function LaterTags(s: Sheet): seq<(string, string)>
    requires Writable(s)
  {
    [("White", s.white), ("Black", s.black), ("Result", ResultTag(s.score)), ("FEN", FenText(s.start)),
     ("Termination", Words(s.ending)), ("PlyCount", Decimal(s.plies)), ("GameDuration", DurationTag(s.hours, s.minutes, s.seconds))]
  }

  function Tags(s: Sheet): seq<(string, string)>
    requires Writable(s)
  {
    [("Event", s.event)] + LaterTags(s)
  }

  function Write(s: Sheet): string
    requires Writable(s)
  {
    PrintTags(Tags(s)) + "\n" + PrintMoves(s.moves, s.last)
  }

  // ---------------------------------------------------------------------------
  // Numbers
  // ---------------------------------------------------------------------------

  function Milliseconds(hours: nat, minutes: nat, seconds: nat): nat { ((hours * 60 + minutes) * 60 + seconds) * 1000 }

  /** A count of plies as it arrives: dropped beyond its type. */
  function CountRead(n: nat): Option<int> {
    if n <= INT32_MAX then Some(n) else None
  }

  /** A duration as it arrives. Hours beyond a long long make the conversion throw; milliseconds beyond
      an int are dropped, and beyond a long long the source promises nothing. */
  function DurationRead(hours: nat, minutes: nat, seconds: nat, platform: Platform): Millis {
    var ms := Milliseconds(hours, minutes, seconds);
    if hours > INT64_MAX then TooLong
    else if ms <= INT32_MAX then Millis(ms)
    else if ms <= INT64_MAX || platform.beyond(ms) > INT32_MAX then NoMillis
    else Millis(ToInt32(platform.beyond(ms)))
  }

  /** A count is read if it is in range, and otherwise ignored. */
  lemma CountIsRead(n: nat)
    ensures Stoi(Decimal(n)) == CountRead(n)
  {
    var s := Decimal(n);
    DecimalValue(n);
    assert IsDigit(s[0]);
    assert RunEnd(s, 0, IsSpace) == 0;
    assert RunEnd(s, 0, IsDigit) == |s|;
    assert s[0..|s|] == s;
  }

  lemma TwoDigitsValue(n: nat)
    requires n < 100
    ensures Value(TwoDigits(n)) == n
  {
    var s := TwoDigits(n);
    assert s[..1] == [Digit(n / 10)];
    assert s[..1][..0] == "";
    assert Value(s[..1]) == n / 10;
  }

  lemma DurationArithmetic(hours: nat, minutes: nat, seconds: nat, platform: Platform)
    ensures DurationOf(hours, minutes, seconds, platform) == DurationRead(hours, minutes, seconds, platform)
  {
    assert (hours * 3600 + minutes * 60 + seconds) * 1000 == Milliseconds(hours, minutes, seconds);
  }

  lemma DurationPlaces(hours: string, minutes: string, seconds: string, s: string)
    requires IsNumber(hours) && |minutes| == 2 && |seconds| == 2 && AllOf(minutes, IsDigit) && AllOf(seconds, IsDigit)
    requires s == hours + (":" + minutes + ":" + seconds)
    ensures var n := |s|; IsDuration(s) && s[..n - 6] == hours && s[n - 5..n - 3] == minutes && s[n - 2..] == seconds
  {
    var n := |s|;
    assert n == |hours| + 6 && s[n - 6] == ':' && s[n - 3] == ':';
    assert s[..n - 6] == hours && s[n - 5..n - 3] == minutes && s[n - 2..] == seconds;
  }

  lemma DurationIsRead(hours: nat, minutes: nat, seconds: nat, platform: Platform)
    requires minutes < 60 && seconds < 60
    ensures ParseDuration(DurationTag(hours, minutes, seconds), platform) == DurationRead(hours, minutes, seconds, platform)
  {
    DurationPlaces(Decimal(hours), TwoDigits(minutes), TwoDigits(seconds), DurationTag(hours, minutes, seconds));
    DecimalValue(hours);
    TwoDigitsValue(minutes);
    TwoDigitsValue(seconds);
    DurationArithmetic(hours, minutes, seconds, platform);
  }

  // ---------------------------------------------------------------------------
  // Tags
  // ---------------------------------------------------------------------------

  lemma DigitsAreOneLine(s: string)
    requires forall i | 0 <= i < |s| :: IsDigit(s[i]) || s[i] == ':'
    ensures OneLine(s)
  {
  }

  lemma TagsArePrintable(s: Sheet)
    requires Writable(s)
    ensures forall i | 0 <= i < |Tags(s)| :: Printable(Tags(s)[i])
  {
    DigitsAreOneLine(Decimal(s.plies));
    DigitsAreOneLine(DurationTag(s.hours, s.minutes, s.seconds));
  }

  lemma OneTagMore(name: string, value: string, rest: seq<(string, string)>, acc: map<string, string>)
    ensures LastWins([(name, value)] + rest, acc) == LastWins(rest, acc[name := value])
  {
    assert ([(name, value)] + rest)[1..] == rest;
  }

  lemma LastOfFour(a: string, b: string, c: string, d: string, rest: seq<(string, string)>, acc: map<string, string>)
    ensures LastWins([("FEN", a), ("Termination", b), ("PlyCount", c), ("GameDuration", d)] + rest, acc)
            == LastWins(rest, acc["FEN" := a]["Termination" := b]["PlyCount" := c]["GameDuration" := d])
  {
    var t3 := [("GameDuration", d)] + rest;
    var t2 := [("PlyCount", c)] + t3;
    var t1 := [("Termination", b)] + t2;
    assert [("FEN", a), ("Termination", b), ("PlyCount", c), ("GameDuration", d)] + rest == [("FEN", a)] + t1;
    OneTagMore("FEN", a, t1, acc);
    OneTagMore("Termination", b, t2, acc["FEN" := a]);
    OneTagMore("PlyCount", c, t3, acc["FEN" := a]["Termination" := b]);
    OneTagMore("GameDuration", d, rest, acc["FEN" := a]["Termination" := b]["PlyCount" := c]);
  }

  lemma FirstOfFour(a: string, b: string, c: string, d: string, rest: seq<(string, string)>, acc: map<string, string>)
    ensures LastWins([("Event", a), ("White", b), ("Black", c), ("Result", d)] + rest, acc)
            == LastWins(rest, acc["Event" := a]["White" := b]["Black" := c]["Result" := d])
  {
    var t3 := [("Result", d)] + rest;
    var t2 := [("Black", c)] + t3;
    var t1 := [("White", b)] + t2;
    assert [("Event", a), ("White", b), ("Black", c), ("Result", d)] + rest == [("Event", a)] + t1;
    OneTagMore("Event", a, t1, acc);
    OneTagMore("White", b, t2, acc["Event" := a]);
    OneTagMore("Black", c, t3, acc["Event" := a]["White" := b]);
    OneTagMore("Result", d, rest, acc["Event" := a]["White" := b]["Black" := c]);
  }

  lemma NamesDiffer()
    ensures "White" != "Black" && "White" != "Result" && "White" != "FEN" && "White" != "Termination" && "White" != "PlyCount" && "White" != "GameDuration"
    ensures "Black" != "Result" && "Black" != "FEN" && "Black" != "Termination" && "Black" != "PlyCount" && "Black" != "GameDuration"
    ensures "Result" != "FEN" && "Result" != "Termination" && "Result" != "PlyCount" && "Result" != "GameDuration"
    ensures "FEN" != "Termination" && "FEN" != "PlyCount" && "FEN" != "GameDuration"
    ensures "Termination" != "PlyCount" && "Termination" != "GameDuration" && "PlyCount" != "GameDuration"
  {
    assert "White"[0] != "Black"[0];
    assert |"PlyCount"| == 8;
  }

  /** The tags say what the sheet says. */
  predicate Says(tags: map<string, string>, s: Sheet) {
    && Writable(s)
    && Tag(tags, "White") == s.white && Tag(tags, "Black") == s.black
    && Tag(tags, "Result") == ResultTag(s.score) && Tag(tags, "FEN") == FenText(s.start) && Tag(tags, "Termination") == Words(s.ending)
    && "PlyCount" in tags && tags["PlyCount"] == Decimal(s.plies)
    && "GameDuration" in tags && tags["GameDuration"] == DurationTag(s.hours, s.minutes, s.seconds)
  }

  lemma LastTags(s: Sheet)
    requires Writable(s)
    ensures Says(LastWins(Tags(s), map[]), s)
  {
    var plies, duration := Decimal(s.plies), DurationTag(s.hours, s.minutes, s.seconds);
    var last := [("FEN", FenText(s.start)), ("Termination", Words(s.ending)), ("PlyCount", plies), ("GameDuration", duration)];
    var result := ResultTag(s.score);
    assert Tags(s) == [("Event", s.event), ("White", s.white), ("Black", s.black), ("Result", result)] + last;
    var empty: map<string, string> := map[];
    FirstOfFour(s.event, s.white, s.black, result, last, empty);
    assert last == last + [];
    LastOfFour(FenText(s.start), Words(s.ending), plies, duration, [], empty["Event" := s.event]["White" := s.white]["Black" := s.black]["Result" := result]);
    NamesDiffer();
  }

  lemma TagsAreRead(s: Sheet)
    requires Writable(s)
    ensures Says(TagsOf(Write(s)), s)
  {
    TagsArePrintable(s);
    ReadPrintedGame(Tags(s), PrintMoves(s.moves, s.last));
    LastTags(s);
  }

  // ---------------------------------------------------------------------------
  // Moves
  // ---------------------------------------------------------------------------

  predicate NoBlankLine(s: string) { forall i | 0 <= i < |s| - 1 :: !(s[i] == '\n' && s[i + 1] == '\n') }

  lemma LineThenRest(line: string, rest: string)
    requires line != "" && AllOf(line, c => c != '\n') && NoBlankLine(rest) && (rest != "" ==> rest[0] != '\n')
    ensures NoBlankLine(line + "\n" + rest)
  {
    var s := line + "\n" + rest;
    forall i | 0 <= i < |s| - 1 ensures !(s[i] == '\n' && s[i + 1] == '\n') {
      if i < |line| {
        assert s[i] == line[i];
      } else if i > |line| {
        assert s[i] == rest[i - |line| - 1] && s[i + 1] == rest[i - |line|];
      } else if rest != "" {
        assert s[i + 1] == rest[0];
      }
    }
  }

  /** A tag section ends with its only line end before a blank line. */
  lemma {:induction false} TagsHaveNoBlankLine(tags: seq<(string, string)>)
    requires forall i | 0 <= i < |tags| :: Printable(tags[i])
    ensures NoBlankLine(PrintTags(tags))
    ensures tags != [] ==> PrintTags(tags) != "" && PrintTags(tags)[0] == '[' && PrintTags(tags)[|PrintTags(tags)| - 1] == '\n'
    decreases |tags|
  {
    if tags != [] {
      PrintedTagIsOneLine(tags[0].0, tags[0].1);
      TagsHaveNoBlankLine(tags[1..]);
      LineThenRest(PrintTag(tags[0].0, tags[0].1), PrintTags(tags[1..]));
    }
  }

  lemma BlankLineFound(text: string, tags: string, moves: string)
    requires text == tags + ("\n" + moves) && NoBlankLine(tags) && tags != "" && tags[|tags| - 1] == '\n'
    ensures Find(text, BLANK_LINE, 0) == Some(|tags| - 1)
  {
    var p: nat := |tags| - 1;
    assert text[p] == '\n' && text[p + 1] == '\n';
    assert At(text, BLANK_LINE, p);
    forall j: nat | 0 <= j < p ensures !At(text, BLANK_LINE, j) {
      assert text[j + 0] == tags[j] && text[j + 1] == tags[j + 1];
      assert BLANK_LINE[0] == '\n' && BLANK_LINE[1] == '\n';
    }
    FindIs(text, BLANK_LINE, 0, p);
  }

  lemma TwoLineEnds(text: string, tags: string, printed: string, pre: string)
    requires text == tags + ("\n" + printed) && tags == pre + "\n"
    ensures text == pre + ("\n\n" + printed)
  {
    forall k | 0 <= k < |text| ensures text[k] == (pre + ("\n\n" + printed))[k] {
    }
  }

  /** Where the comments are looked for, and what is found. */
  lemma CommentsAreRead(text: string, tags: string, moves: seq<Move>, last: string, pre: string)
    requires text == tags + ("\n" + PrintMoves(moves, last)) && NoBlankLine(tags) && tags == pre + "\n"
    requires WritableMoves(moves) && NoBraces(last)
    ensures Find(text, BLANK_LINE, 0) == Some(|pre|) && CommentsFrom(text, |pre|) == Texts(moves)
  {
    BlankLineFound(text, tags, PrintMoves(moves, last));
    TwoLineEnds(text, tags, PrintMoves(moves, last), pre);
    PrintedIsLaid(text, pre, "\n\n", moves, last);
    LaidIsFound(text, |pre|, "\n\n", moves);
  }

  lemma UsageOfNotes(text: string, pre: nat, moves: seq<Move>, whiteFirst: bool, platform: Platform)
    requires WritableMoves(moves) && Find(text, BLANK_LINE, 0) == Some(pre) && CommentsFrom(text, pre) == Texts(moves)
    ensures UsageByColor(text, whiteFirst, platform) == SumUp(Notes(moves), whiteFirst, NOTHING, platform)
  {
    NotesAreRead(moves);
  }

  /** The usage read from a written game is the sum of what its comments say. */
  lemma UsageIsRead(s: Sheet, whiteFirst: bool, platform: Platform)
    requires Writable(s)
    ensures UsageByColor(Write(s), whiteFirst, platform) == SumUp(Notes(s.moves), whiteFirst, NOTHING, platform)
  {
    var tags := PrintTags(Tags(s));
    TagsArePrintable(s);
    TagsHaveNoBlankLine(Tags(s));
    Assoc(tags, "\n", PrintMoves(s.moves, s.last));
    var pre := tags[..|tags| - 1];
    CommentsAreRead(Write(s), tags, s.moves, s.last, pre);
    UsageOfNotes(Write(s), |pre|, s.moves, whiteFirst, platform);
  }

  // ---------------------------------------------------------------------------
  // The whole game
  // ---------------------------------------------------------------------------

  /** The result from the candidate's side. */
  function OutcomeOf(halfPoints: int): Outcome {
    if halfPoints == 2 then CandidateWin else if halfPoints == 1 then Draw else CandidateLoss
  }

  /** The candidate played the game, to a result. */
  predicate Plays(s: Sheet) { (s.white == "candidate" || s.black == "candidate") && s.score.Some? }

  /** The game on a sheet from the candidate's side, given its duration and usage. */
  function FromSheet(s: Sheet, text: string, duration: Millis, usage: Option<ColorUsage>): Parsed
    requires Writable(s)
  {
    var white := s.white == "candidate";
    if !Plays(s) then NotAGame
    else if duration.TooLong? || usage.None? then Throws
    else Played(ParsedGame(text, white, OutcomeOf(if white then s.score.value else 2 - s.score.value),
                           Told(s.ending), CountRead(s.plies),
                           if duration.Millis? then Some(duration.ms) else None,
                           if white then usage.value.white else usage.value.black,
                           if white then usage.value.black else usage.value.white))
  }

  function AsPlayed(s: Sheet, platform: Platform): Parsed
    requires Writable(s)
  {
    FromSheet(s, Write(s), DurationRead(s.hours, s.minutes, s.seconds, platform),
              SumUp(Notes(s.moves), !BlackStarts(s.start), NOTHING, platform))
  }

  lemma ResultsDiffer()
    ensures "1-0" != "0-1" && "1-0" != "1/2-1/2" && "0-1" != "1/2-1/2"
    ensures "*" != "1-0" && "*" != "0-1" && "*" != "1/2-1/2"
  {
    assert |"1/2-1/2"| == 7 && "1-0"[0] != "0-1"[0] && |"*"| == 1;
  }

  lemma ResultIsRead(white: bool, score: Score)
    requires score.Some?
    ensures OutcomeFor(white, ResultTag(score)) == OutcomeOf(if white then score.value else 2 - score.value)
  {
    ResultsDiffer();
  }

  /** What parse_game makes of a text with these tags. */
  lemma SaidIsRead(text: string, s: Sheet, platform: Platform, tags: map<string, string>, duration: Millis, usage: Option<ColorUsage>)
    requires tags == TagsOf(text) && Says(tags, s)
    requires Stoi(tags["PlyCount"]) == CountRead(s.plies)
    requires ParseDuration(tags["GameDuration"], platform) == duration
    requires UsageByColor(text, WhiteFirst(FenText(s.start)), platform) == usage
    ensures ParseGame(text, platform) == FromSheet(s, text, duration, usage)
  {
    SaidIsGame(s, tags);
    EndingIsRead(s.ending);
    if s.score.Some? {
      ResultIsRead(s.white == "candidate", s.score);
    }
  }

  lemma SaidIsGame(s: Sheet, tags: map<string, string>)
    requires Says(tags, s)
    ensures IsGame(tags) <==> Plays(s)
  {
    ResultsDiffer();
  }

  /** Reading a written game gives it back. */
  lemma WrittenGameIsRead(s: Sheet, platform: Platform)
    requires Writable(s)
    ensures ParseGame(Write(s), platform) == AsPlayed(s, platform)
  {
    TagsAreRead(s);
    CountIsRead(s.plies);
    DurationIsRead(s.hours, s.minutes, s.seconds, platform);
    SideIsRead(s.start);
    UsageIsRead(s, !BlackStarts(s.start), platform);
    SaidIsRead(Write(s), s, platform, TagsOf(Write(s)), DurationRead(s.hours, s.minutes, s.seconds, platform),
               UsageByColor(Write(s), !BlackStarts(s.start), platform));
  }

  /** The usage of a written game: each player's nodes and time are what the comments of his own moves add up to,
      as long as that fits a long long. */
  lemma UsageIsTotal(s: Sheet, platform: Platform)
    requires Writable(s) && ParseGame(Write(s), platform).Played?
    requires forall mine: bool :: Fits(None, SideNotes(Notes(s.moves), mine))
    ensures var game, candidateFirst := ParseGame(Write(s), platform).game, (s.white == "candidate") != BlackStarts(s.start);
            && SumsTo(None, SideNotes(Notes(s.moves), candidateFirst), game.candidateUsage)
            && SumsTo(None, SideNotes(Notes(s.moves), !candidateFirst), game.baselineUsage)
  {
    WrittenGameIsRead(s, platform);
    SumsAreTotals(Notes(s.moves), !BlackStarts(s.start), NOTHING, platform);
  }

  /** The comment holds more nodes than a long long, or seconds that a double cannot hold: they round to
      2^1024, or are too small for a normal double and refused for it. */
  predicate Unreadable(c: Comment, platform: Platform)
    requires WritableComment(c)
  {
    || c.nodes > 9_223_372_036_854_775_807
    || DoubleThrows(Said(c).seconds, platform)
  }

  /** A number on the sheet that makes a conversion throw. */
  predicate HasUnreadableNumber(s: Sheet, platform: Platform)
    requires Writable(s)
  {
    s.hours > 9_223_372_036_854_775_807 || exists i :: 0 <= i < |s.moves| && Unreadable(s.moves[i].comment, platform)
  }

  /** Reading a written game of the candidate throws exactly if its hours or the nodes of some move
      are beyond a long long, or the seconds of some move beyond a double. */
  lemma WhenReadingThrows(s: Sheet, platform: Platform)
    requires Writable(s)
    ensures ParseGame(Write(s), platform).Throws?
       <==> Plays(s) && HasUnreadableNumber(s, platform)
  {
    WrittenGameIsRead(s, platform);
    SumThrows(Notes(s.moves), !BlackStarts(s.start), NOTHING, platform);
    forall i | 0 <= i < |s.moves|
      ensures Notes(s.moves)[i] == Some(Said(s.moves[i].comment))
      ensures NoteThrows(Said(s.moves[i].comment), platform) <==> Unreadable(s.moves[i].comment, platform)
    {
    }
  }
}
