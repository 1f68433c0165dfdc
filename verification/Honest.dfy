/** Client and server together: what the pentanomial counts when every result comes from a client that
    builds its bodies with make_result_body. */
module Honest {
  import opened Schema
  import opened Outcomes
  import opened Sanity
  import opened Queue
  import opened Invariants
  import opened Runs
  import opened ExactlyOnce
  import opened Pgn
  import opened GameText
  import opened Parsing
  import opened ResultBody

  ghost predicate HonestBody(report: PairReport, platform: Platform) {
    exists pgn, note, tc :: Body(report.client, pgn, note, tc, platform) == Some(report)
  }

  ghost predicate HonestRun(run: seq<Action>, platform: Platform) {
    forall n | 0 <= n < |run| && run[n].DoSubmit? :: HonestBody(run[n].report, platform)
  }

  /** Behind a pair's score stand two games read from one text the match left behind, with the
      candidate on opposite colours; the text is returned as the witness. */
  ghost predicate PlayedIn(pgn: string, platform: Platform, score: real) {
    && |Split(pgn)| >= 2
    && ParseGame(Split(pgn)[0], platform).Played? && ParseGame(Split(pgn)[1], platform).Played?
    && var a, b := ParseGame(Split(pgn)[0], platform).game, ParseGame(Split(pgn)[1], platform).game;
       a.candidateIsWhite != b.candidateIsWhite && score == Points(a.outcome) + Points(b.outcome)
  }

  lemma CountedMeansValid(db: Db, p: int, report: PairReport)
    requires report.Valid() && PairScore(db, p).Some? && Recorded(db, p, report)
    ensures CheckPair(report, 0) && CheckPair(report, 1)
    ensures PairScore(db, p) == Some(Points(report.games[0].outcome) + Points(report.games[1].outcome))
  {
  }

  lemma HonestScore(report: PairReport, platform: Platform) returns (pgn: string)
    requires report.Valid() && HonestBody(report, platform) && CheckPair(report, 0) && CheckPair(report, 1)
    ensures PlayedIn(pgn, platform, Points(report.games[0].outcome) + Points(report.games[1].outcome))
  {
    var text, note, tc :| Body(report.client, text, note, tc, platform) == Some(report);
    pgn := text;
    CountedPairsWerePlayed(report.client, pgn, note, tc, platform);
    NothingFabricated(report.client, pgn, note, tc, platform, 0);
    NothingFabricated(report.client, pgn, note, tc, platform, 1);
  }

  /** No fabricated game is ever counted, in any run whose results honest clients sent. */
  lemma OnlyPlayedPairsCount(cfg: Config, run: seq<Action>, platform: Platform, p: int) returns (pgn: string)
    requires Legal(cfg, EMPTY_DB, run) && HonestRun(run, platform)
    requires PairScore(After(cfg, EMPTY_DB, run), p).Some?
    ensures PlayedIn(pgn, platform, PairScore(After(cfg, EMPTY_DB, run), p).value)
  {
    EmptyInv(cfg);
    var n, report := CompletedByOneBody(cfg, EMPTY_DB, run, p);
    CountedMeansValid(After(cfg, EMPTY_DB, run), p, report);
    assert HonestBody(run[n].report, platform);
    pgn := HonestScore(report, platform);
  }

  lemma HonestGame(report: PairReport, platform: Platform, i: nat)
    requires report.Valid() && HonestBody(report, platform) && i < 2 && CheckPair(report, i)
    ensures WellFormed(report.games[i].pgn)
  {
    var text, note, tc :| Body(report.client, text, note, tc, platform) == Some(report);
    NothingFabricated(report.client, text, note, tc, platform, i);
  }

  /** The PGN stored with a valid game is one well-formed game, as a download of valid games needs. */
  lemma ValidGamesAreWellFormed(cfg: Config, run: seq<Action>, platform: Platform, key: GameKey)
    requires Legal(cfg, EMPTY_DB, run) && HonestRun(run, platform)
    requires key in After(cfg, EMPTY_DB, run).games && After(cfg, EMPTY_DB, run).games[key].valid
    ensures WellFormed(After(cfg, EMPTY_DB, run).games[key].report.pgn)
  {
    EmptyInv(cfg);
    RunKeeps(cfg, EMPTY_DB, run);
    var db := After(cfg, EMPTY_DB, run);
    assert GamesTableOk(db);
    var n, report := CompletedByOneBody(cfg, EMPTY_DB, run, key.pair);
    assert HonestBody(run[n].report, platform);
    StoredGame(db, key, report);
    HonestGame(report, platform, key.slot);
  }

  lemma StoredGame(db: Db, key: GameKey, report: PairReport)
    requires report.Valid() && key in db.games && key.slot < 2 && Recorded(db, key.pair, report)
    ensures db.games[key].report == report.games[key.slot] && db.games[key].valid == CheckPair(report, key.slot)
  {
    assert key == GameKey(key.pair, 0) || key == GameKey(key.pair, 1);
  }
}
