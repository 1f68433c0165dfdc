/** Client and server together, with submits that interleave: what is counted when every result that
    arrives was built by make_result_body. */
module HonestInterleaved {
  import opened Schema
  import opened Outcomes
  import opened Invariants
  import opened ExactlyOnce
  import opened Endings
  import opened Concurrent
  import opened Interleaved
  import opened Records
  import opened Pgn
  import opened GameText
  import opened Honest

  /** One honest body is what is on record for the pair. */
  ghost predicate HonestlyRecorded(db: Db, p: int, report: PairReport, platform: Platform) {
    report.Valid() && HonestBody(report, platform) && Recorded(db, p, report)
  }

  ghost predicate HonestStep(step: Step, platform: Platform) { step.Arrive? ==> HonestBody(step.report, platform) }

  ghost predicate HonestSteps(run: seq<Step>, platform: Platform) {
    forall n | 0 <= n < |run| :: HonestStep(run[n], platform)
  }

  lemma HonestRecord(cfg: Config, run: seq<Step>, platform: Platform, p: int) returns (report: PairReport)
    requires LegalSteps(cfg, START, run) && HonestSteps(run, platform) && Done(AfterSteps(cfg, START, run).db, p)
    ensures HonestlyRecorded(AfterSteps(cfg, START, run).db, p, report, platform)
  {
    ghost var good := (q: int, body: PairReport) => HonestBody(body, platform);
    forall n | 0 <= n < |run| ensures GoodStep(run[n], good) {
      assert HonestStep(run[n], platform);
    }
    report := RecordIsGood(cfg, run, good, p);
  }

  /** No fabricated game is ever counted, however honest clients' submits interleave. */
  lemma OnlyPlayedPairsCount(cfg: Config, run: seq<Step>, platform: Platform, p: int) returns (pgn: string)
    requires LegalSteps(cfg, START, run) && HonestSteps(run, platform)
    requires PairScore(AfterSteps(cfg, START, run).db, p).Some?
    ensures PlayedIn(pgn, platform, PairScore(AfterSteps(cfg, START, run).db, p).value)
  {
    var report := HonestRecord(cfg, run, platform, p);
    CountedMeansValid(AfterSteps(cfg, START, run).db, p, report);
    pgn := HonestScore(report, platform);
  }

  lemma GamesOfDonePairs(cfg: Config, db: Db, key: GameKey)
    requires Inv(cfg, Veil(db)) && key in db.games
    ensures Done(db, key.pair) && key.slot < 2
  {
    assert key in Veil(db).games && GamesTableOk(Veil(db));
  }

  lemma RecordedGame(db: Db, key: GameKey, report: PairReport, platform: Platform)
    requires HonestlyRecorded(db, key.pair, report, platform) && key in db.games && db.games[key].valid && key.slot < 2
    ensures WellFormed(db.games[key].report.pgn)
  {
    assert key == GameKey(key.pair, 0) || key == GameKey(key.pair, 1);
    HonestGame(report, platform, key.slot);
  }

  /** The PGN stored with a valid game is one well-formed game. */
  lemma ValidGamesAreWellFormed(cfg: Config, run: seq<Step>, platform: Platform, key: GameKey)
    requires LegalSteps(cfg, START, run) && HonestSteps(run, platform)
    requires key in AfterSteps(cfg, START, run).db.games && AfterSteps(cfg, START, run).db.games[key].valid
    ensures WellFormed(AfterSteps(cfg, START, run).db.games[key].report.pgn)
  {
    StartOk(cfg);
    RunStaysOk(cfg, START, run);
    var db := AfterSteps(cfg, START, run).db;
    GamesOfDonePairs(cfg, db, key);
    var report := HonestRecord(cfg, run, platform, key.pair);
    RecordedGame(db, key, report, platform);
  }
}
