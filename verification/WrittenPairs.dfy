/** A pair as a match writes it: two games, one after the other, through split_pgn_games, parse_game and
    make_result_body (client/pgn.cpp, client/runner.cpp). */
module WrittenPairs {
  import opened Schema
  import opened Pgn
  import opened GameText
  import opened TimeControl
  import opened Movetext
  import opened Scoresheet
  import opened ResultBody

  /** No bracket at the start of a line. */
  predicate NoBracketLine(s: string) { forall i | 0 <= i < |s| - 1 :: !(s[i] == '\n' && s[i + 1] == '[') }

  /** No line after the first begins like an Event tag. */
  predicate NoEventLine(s: string) { forall i | 0 <= i < |s| - 2 :: !(s[i] == '\n' && s[i + 1] == '[' && s[i + 2] == 'E') }

  predicate EndsOnce(s: string) { |s| >= 2 && s[|s| - 1] == '\n' && !IsNewline(s[|s| - 2]) }

  /** A sheet whose text is one game of a PGN. */
  predicate IsGameText(s: Sheet) {
    Writable(s) && NoBracketLine(PrintMoves(s.moves, s.last)) && EndsOnce(PrintMoves(s.moves, s.last))
  }

  lemma LineKeepsOut(line: string, rest: string)
    requires AllOf(line, c => c != '\n') && NoEventLine(rest) && (|rest| >= 2 ==> !(rest[0] == '[' && rest[1] == 'E'))
    ensures NoEventLine(line + "\n" + rest)
  {
    var s, n := line + "\n" + rest, |line| + 1;
    forall i | 0 <= i < |s| - 2 ensures !(s[i] == '\n' && s[i + 1] == '[' && s[i + 2] == 'E') {
      if i < |line| {
        assert s[i] == line[i];
      } else if i > |line| {
        assert s[i] == rest[i - n] && s[i + 1] == rest[i + 1 - n] && s[i + 2] == rest[i + 2 - n];
      } else {
        assert s[i + 1] == rest[0] && s[i + 2] == rest[1];
      }
    }
  }

  lemma BlankKeepsOut(moves: string)
    requires NoBracketLine(moves) && IsMoves(moves)
    ensures NoEventLine("\n" + moves)
  {
    var s := "\n" + moves;
    forall i | 0 <= i < |s| - 2 ensures !(s[i] == '\n' && s[i + 1] == '[' && s[i + 2] == 'E') {
      if i > 0 {
        assert s[i] == moves[i - 1] && s[i + 1] == moves[i];
      }
    }
  }

  /** The text begins with no Event tag, and no later line does. */
  predicate KeepsOut(s: string) { NoEventLine(s) && (|s| >= 2 ==> !(s[0] == '[' && s[1] == 'E')) }

  lemma LineFirst(name: string, value: string, rest: string)
    requires name != "" && name[0] != 'E'
    ensures var s := PrintTag(name, value) + "\n" + rest; |s| >= 2 && s[1] != 'E'
  {
    var s := PrintTag(name, value) + "\n" + rest;
    assert s[1] == PrintTag(name, value)[1];
    assert PrintTag(name, value)[1] == name[0];
  }

  lemma {:induction false} TagsKeepOut(tags: seq<(string, string)>, moves: string)
    requires forall i | 0 <= i < |tags| :: Printable(tags[i]) && tags[i].0[0] != 'E'
    requires NoBracketLine(moves) && IsMoves(moves)
    ensures KeepsOut(PrintTags(tags) + ("\n" + moves))
    decreases |tags|
  {
    if tags == [] {
      BlankKeepsOut(moves);
      assert "" + ("\n" + moves) == "\n" + moves;
    } else {
      var line, rest := PrintTag(tags[0].0, tags[0].1), PrintTags(tags[1..]);
      PrintedTagIsOneLine(tags[0].0, tags[0].1);
      TagsKeepOut(tags[1..], moves);
      LineKeepsOut(line, rest + ("\n" + moves));
      LineFirst(tags[0].0, tags[0].1, rest + ("\n" + moves));
      Assoc(line + "\n", rest, "\n" + moves);
    }
  }

  lemma EventLine(s: string, i: nat)
    requires At(s, NEXT_EVENT, i)
    ensures i + 2 < |s| && s[i] == '\n' && s[i + 1] == '[' && s[i + 2] == 'E'
  {
    assert s[i + 0] == NEXT_EVENT[0] && s[i + 1] == NEXT_EVENT[1] && s[i + 2] == NEXT_EVENT[2];
  }

  lemma NoEventLineIsAlone(s: string)
    requires NoEventLine(s)
    ensures Alone(s)
  {
    forall i | 0 <= i ensures !At(s, NEXT_EVENT, i) {
      if At(s, NEXT_EVENT, i) {
        EventLine(s, i);
      }
    }
  }

  lemma EventFirst(value: string, rest: string)
    ensures At(PrintTag("Event", value) + "\n" + rest, EVENT, 0)
  {
    var s := PrintTag("Event", value) + "\n" + rest;
    assert PrintTag("Event", value) == EVENT + ("\"" + value + "\"]");
    assert s == EVENT + ("\"" + value + "\"]" + "\n" + rest);
    assert forall k | 0 <= k < |EVENT| :: s[0 + k] == EVENT[k];
  }

  lemma EndsLater(front: string, moves: string)
    requires EndsOnce(moves)
    ensures EndsOnce(front + moves)
  {
  }

  /** The tag section, the Event tag first. */
  lemma EventThenRest(s: Sheet, line: string, rest: string)
    requires Writable(s) && line == PrintTag("Event", s.event)
    requires rest == PrintTags(LaterTags(s)) + ("\n" + PrintMoves(s.moves, s.last))
    ensures Write(s) == line + "\n" + rest
  {
    assert Tags(s)[1..] == LaterTags(s);
    Assoc(line + "\n", PrintTags(LaterTags(s)), "\n" + PrintMoves(s.moves, s.last));
    Assoc(PrintTags(Tags(s)), "\n", PrintMoves(s.moves, s.last));
  }

  lemma LaterTagsKeepOut(s: Sheet)
    requires Writable(s)
    ensures forall i | 0 <= i < |LaterTags(s)| :: Printable(LaterTags(s)[i]) && LaterTags(s)[i].0[0] != 'E'
  {
    TagsArePrintable(s);
    assert forall i | 0 <= i < |LaterTags(s)| :: LaterTags(s)[i] == Tags(s)[i + 1];
  }

  /** The text of such a sheet is one well-formed game. */
  lemma WrittenIsWellFormed(s: Sheet)
    requires IsGameText(s)
    ensures WellFormed(Write(s))
  {
    var moves := PrintMoves(s.moves, s.last);
    var line, rest := PrintTag("Event", s.event), PrintTags(LaterTags(s)) + ("\n" + moves);
    TagsArePrintable(s);
    assert Printable(Tags(s)[0]);
    PrintedTagIsOneLine("Event", s.event);
    EventThenRest(s, line, rest);
    LaterTagsKeepOut(s);
    TagsKeepOut(LaterTags(s), moves);
    LineKeepsOut(line, rest);
    NoEventLineIsAlone(Write(s));
    EventFirst(s.event, rest);
    EndsLater(PrintTags(Tags(s)) + "\n", moves);
  }

  /** What make_result_body makes of a text with these two games, in terms of the two sheets. */
  lemma WrittenPairIsReported(a: Sheet, b: Sheet, client: int, note: string, tc: Tc, platform: Platform)
    requires IsGameText(a) && IsGameText(b)
    ensures var x, y := AsPlayed(a, platform), AsPlayed(b, platform);
            Body(client, Join([Write(a), Write(b)]), note, tc, platform)
            == if x.Throws? || y.Throws? then None
               else Some(PairReport(client, [ReportOf(x, y, 0, tc, note), ReportOf(y, x, 1, tc, note)]))
  {
    WrittenIsWellFormed(a);
    WrittenIsWellFormed(b);
    SplitOfJoin([Write(a), Write(b)]);
    WrittenGameIsRead(a, platform);
    WrittenGameIsRead(b, platform);
  }

  /** The report of a game the candidate played, field by field. */
  ghost predicate ReportsGame(s: Sheet, tc: Tc, platform: Platform, r: GameReport)
    requires Writable(s)
  {
    var white, duration := s.white == "candidate", DurationRead(s.hours, s.minutes, s.seconds, platform);
    && Plays(s) && r.candidateIsWhite == white
    && (r.outcome == CandidateWin <==> s.score == Some(if white then 2 else 0))
    && (r.outcome == CandidateLoss <==> s.score == Some(if white then 0 else 2))
    && r.termination == Told(s.ending) && r.plyCount == CountRead(s.plies)
    && (r.durationMs.Some? <==> duration.Millis?) && (duration.Millis? ==> r.durationMs.value == duration.ms)
    && r.tcBaseMs == tc.baseMs && r.tcIncrementMs == tc.incrementMs && r.pgn == Write(s)
  }

  /** The report that stands for game i, which the candidate did not play to a result: drawn by a crash after no
      moves, with the colour the other game left over, or White's first. */
  ghost predicate ReportsNothing(s: Sheet, other: Sheet, i: nat, tc: Tc, r: GameReport) {
    && !Plays(s) && r.candidateIsWhite == (if Plays(other) then other.white != "candidate" else i == 0)
    && r.outcome == Draw && r.termination == Crash && r.plyCount == None && r.durationMs == None
    && r.tcBaseMs == tc.baseMs && r.tcIncrementMs == tc.incrementMs
  }

  lemma GameIsReported(s: Sheet, other: Sheet, i: nat, tc: Tc, note: string, platform: Platform)
    requires Writable(s) && Writable(other) && !AsPlayed(s, platform).Throws? && !AsPlayed(other, platform).Throws?
    ensures var r := ReportOf(AsPlayed(s, platform), AsPlayed(other, platform), i, tc, note);
            if Plays(s) then ReportsGame(s, tc, platform, r) else ReportsNothing(s, other, i, tc, r)
  {
  }

  /** The body of a pair, field by field. */
  lemma BodyInColumns(a: Sheet, b: Sheet, client: int, note: string, tc: Tc, platform: Platform)
    requires IsGameText(a) && IsGameText(b)
    requires Body(client, Join([Write(a), Write(b)]), note, tc, platform).Some?
    ensures var body := Body(client, Join([Write(a), Write(b)]), note, tc, platform).value;
            && body.client == client && |body.games| == 2
            && (if Plays(a) then ReportsGame(a, tc, platform, body.games[0]) else ReportsNothing(a, b, 0, tc, body.games[0]))
            && (if Plays(b) then ReportsGame(b, tc, platform, body.games[1]) else ReportsNothing(b, a, 1, tc, body.games[1]))
  {
    WrittenPairIsReported(a, b, client, note, tc, platform);
    GameIsReported(a, b, 0, tc, note, platform);
    GameIsReported(b, a, 1, tc, note, platform);
  }

  /** There is no body exactly if a game of the candidate's holds a number its conversion refuses. */
  lemma WhenNoBody(a: Sheet, b: Sheet, client: int, note: string, tc: Tc, platform: Platform)
    requires IsGameText(a) && IsGameText(b)
    ensures Body(client, Join([Write(a), Write(b)]), note, tc, platform).None?
       <==> (Plays(a) && HasUnreadableNumber(a, platform)) || (Plays(b) && HasUnreadableNumber(b, platform))
  {
    WrittenPairIsReported(a, b, client, note, tc, platform);
    WhenReadingThrows(a, platform);
    WhenReadingThrows(b, platform);
    WrittenGameIsRead(a, platform);
    WrittenGameIsRead(b, platform);
  }

  /** A game of 2^63 hours. */
  const TOO_LONG := Sheet("match", "candidate", "baseline", Some(2), Fen("startpos", false, ""), Unsaid, 1, INT64_MAX + 1, 0, 0, [], "1. e4 1-0\n")

  lemma TooLongIsGameText()
    ensures IsGameText(TOO_LONG)
  {
    TooLongIsWritable();
    assert PrintMoves([], TOO_LONG.last) == TOO_LONG.last;
  }

  lemma NamesAreLines()
    ensures OneLine("match") && OneLine("candidate") && OneLine("baseline")
  {
  }

  lemma StartIsLine()
    ensures WritableStart(Fen("startpos", false, ""))
  {
    assert FenText(Fen("startpos", false, "")) == "startpos w";
  }

  lemma TooLongIsWritable()
    ensures Writable(TOO_LONG)
  {
    assert PrintMoves([], TOO_LONG.last) == TOO_LONG.last;
    assert Words(TOO_LONG.ending) == "";
    NamesAreLines();
    StartIsLine();
  }

  /** A text without a body, on every platform. */
  lemma NoBodyForTooLong(client: int, note: string, tc: Tc, platform: Platform)
    ensures IsGameText(TOO_LONG)
    ensures Body(client, Join([Write(TOO_LONG), Write(TOO_LONG)]), note, tc, platform).None?
  {
    TooLongIsGameText();
    WhenNoBody(TOO_LONG, TOO_LONG, client, note, tc, platform);
  }
}
