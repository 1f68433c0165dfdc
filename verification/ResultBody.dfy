/** client/runner.cpp, make_result_body: from whatever text the match left behind to the body of a
    result. Games that cannot be read are replaced by placeholders, which must never be counted. */
module ResultBody {
  import opened Schema
  import opened Sanity
  import opened Pgn
  import opened GameText
  import opened Parsing
  import opened Usage
  import opened TimeControl

  /** What there is of game i of the pair: the i-th game of the text, read. */
  function Slot(pgn: string, platform: Platform, i: nat): Parsed {
    if i < |Split(pgn)| then ParseGame(Split(pgn)[i], platform) else NotAGame
  }

  function Report(g: ParsedGame, tc: Tc): GameReport {
    GameReport(g.candidateIsWhite, g.outcome, g.termination, g.plyCount, g.durationMs, tc.baseMs, tc.incrementMs, g.text)
  }

  function Placeholder(other: Parsed, i: nat, tc: Tc, note: string): GameReport {
    GameReport(if other.Played? then !other.game.candidateIsWhite else i == 0, Draw, Crash, None, None,
               tc.baseMs, tc.incrementMs, "{capi_net: partida ausente no PGN do fastchess. " + note + "}\n")
  }

  function ReportOf(mine: Parsed, other: Parsed, i: nat, tc: Tc, note: string): GameReport {
    if mine.Played? then Report(mine.game, tc) else Placeholder(other, i, tc, note)
  }

  /** The body; None where reading one of the first two games throws. */
  function Body(client: int, pgn: string, note: string, tc: Tc, platform: Platform): Option<PairReport> {
    var a, b := Slot(pgn, platform, 0), Slot(pgn, platform, 1);
    if a.Throws? || b.Throws? then None
    else Some(PairReport(client, [ReportOf(a, b, 0, tc, note), ReportOf(b, a, 1, tc, note)]))
  }

  /** The loop that reads at most two games, filled up to two. */
  method ReadGames(texts: seq<string>, platform: Platform) returns (parsed: seq<Parsed>, ok: bool)
    ensures ok <==> forall i | 0 <= i < 2 && i < |texts| :: !ParseGame(texts[i], platform).Throws?
    ensures ok ==> |parsed| == 2
    ensures ok ==> forall i | 0 <= i < 2 :: parsed[i] == if i < |texts| then ParseGame(texts[i], platform) else NotAGame
  {
    parsed := [];
    while |parsed| < 2 && |parsed| < |texts|
      invariant |parsed| <= 2 && |parsed| <= |texts|
      invariant forall i | 0 <= i < |parsed| :: parsed[i] == ParseGame(texts[i], platform) && !parsed[i].Throws?
      decreases |texts| - |parsed|
    {
      var game := ParseGame(texts[|parsed|], platform);
      if game.Throws? {
        return parsed, false;
      }
      parsed := parsed + [game];
    }
    ghost var read := |parsed|;
    while |parsed| < 2
      invariant read <= |parsed| <= 2 && (read < 2 ==> read == |texts|)
      invariant forall i | 0 <= i < read :: parsed[i] == ParseGame(texts[i], platform) && !parsed[i].Throws?
      invariant forall i | read <= i < |parsed| :: parsed[i] == NotAGame
      decreases 2 - |parsed|
    {
      parsed := parsed + [NotAGame];
    }
    ok := true;
  }

  /** make_result_body */
  method MakeResultBody(client: int, pgn: string, note: string, tc: Tc, platform: Platform)
    returns (body: Option<PairReport>)
    ensures body == Body(client, pgn, note, tc, platform)
  {
    var texts := SplitPgnGames(pgn);
    var parsed, ok := ReadGames(texts, platform);
    assert ok <==> !Slot(pgn, platform, 0).Throws? && !Slot(pgn, platform, 1).Throws?;
    if !ok {
      return None;
    }
    assert parsed[0] == Slot(pgn, platform, 0) && parsed[1] == Slot(pgn, platform, 1);
    var games := FillIn(parsed, tc, note);
    body := Some(PairReport(client, games));
  }

  method FillIn(parsed: seq<Parsed>, tc: Tc, note: string) returns (games: seq<GameReport>)
    requires |parsed| == 2
    ensures games == [ReportOf(parsed[0], parsed[1], 0, tc, note), ReportOf(parsed[1], parsed[0], 1, tc, note)]
  {
    games := [];
    for i := 0 to 2
      invariant |games| == i
      invariant forall k | 0 <= k < i :: games[k] == ReportOf(parsed[k], parsed[1 - k], k, tc, note)
    {
      if parsed[i].Played? {
        games := games + [Report(parsed[i].game, tc)];
      } else {
        games := games + [Placeholder(parsed[1 - i], i, tc, note)];
      }
    }
  }

  lemma PassedWasRead(mine: Parsed, other: Parsed, i: nat, tc: Tc, note: string)
    requires CheckGame(ReportOf(mine, other, i, tc, note))
    ensures mine.Played? && ReportOf(mine, other, i, tc, note) == Report(mine.game, tc)
  {
  }

  /** No game is made up: whatever the text, game i of the body can pass the server's checks only if
      the i-th game of the text was read, and then it is reported as it was read. */
  lemma NothingFabricated(client: int, pgn: string, note: string, tc: Tc, platform: Platform, i: nat)
    requires i < 2 && Body(client, pgn, note, tc, platform).Some?
    requires CheckPair(Body(client, pgn, note, tc, platform).value, i)
    ensures i < |Split(pgn)| && ParseGame(Split(pgn)[i], platform).Played?
    ensures Body(client, pgn, note, tc, platform).value.games[i] == Report(ParseGame(Split(pgn)[i], platform).game, tc)
    ensures WellFormed(Body(client, pgn, note, tc, platform).value.games[i].pgn)
  {
    PassedWasRead(Slot(pgn, platform, i), Slot(pgn, platform, 1 - i), i, tc, note);
    TextIsKept(Split(pgn)[i], platform);
    SplitIsWellFormed(pgn);
  }

  lemma TextIsKept(text: string, platform: Platform)
    requires ParseGame(text, platform).Played?
    ensures ParseGame(text, platform).game.text == text
  {
  }

  /** If both games pass, both were read and the candidate had opposite colours in them. */
  lemma CountedPairsWerePlayed(client: int, pgn: string, note: string, tc: Tc, platform: Platform)
    requires Body(client, pgn, note, tc, platform).Some?
    requires CheckPair(Body(client, pgn, note, tc, platform).value, 0) && CheckPair(Body(client, pgn, note, tc, platform).value, 1)
    ensures |Split(pgn)| >= 2
    ensures ParseGame(Split(pgn)[0], platform).Played? && ParseGame(Split(pgn)[1], platform).Played?
    ensures ParseGame(Split(pgn)[0], platform).game.candidateIsWhite != ParseGame(Split(pgn)[1], platform).game.candidateIsWhite
  {
    NothingFabricated(client, pgn, note, tc, platform, 0);
    NothingFabricated(client, pgn, note, tc, platform, 1);
  }

  function CommentsOf(text: string): seq<string> {
    match Find(text, BLANK_LINE, 0) case None => [] case Some(start) => CommentsFrom(text, start)
  }

  /** A number in the text of a game that its conversion refuses: hours or nodes whose digits are beyond a
      long long, or seconds beyond a double. */
  ghost predicate HoldsUnreadableNumber(text: string, platform: Platform) {
    var tags, comments := TagsOf(text), CommentsOf(text);
    || ("GameDuration" in tags && IsDuration(tags["GameDuration"])
        && Value(tags["GameDuration"][..|tags["GameDuration"]| - 6]) > INT64_MAX)
    || exists i :: 0 <= i < |comments| && NoteOf(comments[i]).Some? && NoteThrows(NoteOf(comments[i]).value, platform)
  }

  lemma UsageThrows(text: string, whiteFirst: bool, platform: Platform)
    ensures UsageByColor(text, whiteFirst, platform).None?
       <==> exists i :: 0 <= i < |CommentsOf(text)| && NoteOf(CommentsOf(text)[i]).Some? && NoteThrows(NoteOf(CommentsOf(text)[i]).value, platform)
  {
    var notes := NotesOf(CommentsOf(text));
    SumThrows(notes, whiteFirst, NOTHING, platform);
    assert forall i | 0 <= i < |notes| :: notes[i] == NoteOf(CommentsOf(text)[i]);
    if i :| 0 <= i < |CommentsOf(text)| && NoteOf(CommentsOf(text)[i]).Some? && NoteThrows(NoteOf(CommentsOf(text)[i]).value, platform) {
      assert notes[i].Some?;
    }
  }

  /** Reading a game throws exactly if the candidate played it to a result and it holds such a number. */
  lemma ReadingThrows(text: string, platform: Platform)
    ensures ParseGame(text, platform).Throws? <==> IsGame(TagsOf(text)) && HoldsUnreadableNumber(text, platform)
  {
    UsageThrows(text, WhiteFirst(Tag(TagsOf(text), "FEN")), platform);
  }

  /** There is a body unless one of the first two games is such a game. It has both games, and their
      colours are opposite unless both games were read. */
  lemma BodyIsComplete(client: int, pgn: string, note: string, tc: Tc, platform: Platform)
    ensures var body, texts := Body(client, pgn, note, tc, platform), Split(pgn);
            && (body.None? <==> exists i :: 0 <= i < 2 && i < |texts| && IsGame(TagsOf(texts[i])) && HoldsUnreadableNumber(texts[i], platform))
            && (body.Some? ==>
                  && body.value.Valid() && body.value.client == client
                  && (body.value.games[0].candidateIsWhite == body.value.games[1].candidateIsWhite
                      ==> Slot(pgn, platform, 0).Played? && Slot(pgn, platform, 1).Played?))
  {
    forall i | 0 <= i < 2 && i < |Split(pgn)|
      ensures Slot(pgn, platform, i).Throws? <==> IsGame(TagsOf(Split(pgn)[i])) && HoldsUnreadableNumber(Split(pgn)[i], platform)
    {
      ReadingThrows(Split(pgn)[i], platform);
    }
  }
}
