/** A run from the empty database to a test that can never count a pair: its hypotheses are too far out
    for the LLR computation, and every result with two valid games is rolled back. */
module FarRun {
  import opened Schema
  import opened Lifecycle
  import opened Queue
  import opened Runs
  import opened Interleaved
  import opened Aborts
  import opened FirstPair
  import Llr
  import Mirror
  import Safety

  /** Such a test, with error rates of five percent. */
  const FAR: Kind := Sprt(-300.0, 300.0, 0.05, 0.05)

  lemma OneMore(cfg: Config, db: Db, a: Action)
    requires Safety.Reachable(cfg, db) && Enabled(db, a)
    ensures Safety.Reachable(cfg, Apply(cfg, db, a))
  {
    var run :| Legal(cfg, EMPTY_DB, run) && After(cfg, EMPTY_DB, run) == db;
    assert Legal(cfg, db, [a]) && After(cfg, db, [a]) == Apply(cfg, db, a);
    AppendRun(cfg, EMPTY_DB, run, [a]);
  }

  /** A test of one pair and any kind gets to run, and its pair to be leased. */
  lemma ReadyIsReachable(cfg: Config, kind: Kind) returns (db: Db)
    ensures Safety.Reachable(cfg, db) && Ready(kind, db)
  {
    assert Legal(cfg, EMPTY_DB, []) && After(cfg, EMPTY_DB, []) == EMPTY_DB;
    var db1 := Registered(cfg);
    OneMore(cfg, EMPTY_DB, REGISTER);
    var db2 := TestInserted(cfg, kind, db1);
    OneMore(cfg, db1, InsertOf(kind));
    var db3 := Admitted(cfg, kind, db2);
    OneMore(cfg, db2, ADMIT);
    Claimable(kind, db3);
    db := Claimed(cfg, kind, db3);
    OneMore(cfg, db3, CLAIM);
  }

  /** With the LLR of common/gsprt.cpp and any solver, the leased pair's result is rolled back whenever
      both its games are valid, and nothing changes. */
  lemma FarResultsRollBack(tools: Llr.Tools, ttl: real, maxAttempts: nat, cfg: Config, kind: Kind, db: Db, report: PairReport)
    requires Llr.Sound(tools) && cfg == Mirror.Gsprt(tools, ttl, maxAttempts)
    requires FarTest(kind) && Ready(kind, db) && Safety.Reachable(cfg, db)
    requires report.Valid() && report.client == 1 && BothValid(report)
    ensures Submit(cfg, db, 1, report) == (db, Aborted)
  {
    ReadyAccepts(kind, db);
    GsprtThrowsFar(tools, ttl, maxAttempts);
    Safety.ReachableInv(cfg, db);
    FarSubmitRollsBack(cfg, db, 1, report);
  }

  /** From the empty database: register, insert the test, commit its smoke test, claim its pair; then
      the result of the pair, with two valid games, is rolled back. */
  lemma AFarTestRuns(tools: Llr.Tools, ttl: real, maxAttempts: nat, cfg: Config) returns (db: Db)
    requires Llr.Sound(tools) && cfg == Mirror.Gsprt(tools, ttl, maxAttempts)
    ensures Safety.Reachable(cfg, db) && HasStatus(db, 1, Running) && db.tests[1].kind == FAR
    ensures REPORT.Valid() && BothValid(REPORT) && SubmitGuard(db, 1, 1) == AcceptedResult
    ensures Submit(cfg, db, 1, REPORT) == (db, Aborted)
  {
    db := ReadyIsReachable(cfg, FAR);
    ReadyAccepts(FAR, db);
    BothGamesValid();
    FarResultsRollBack(tools, ttl, maxAttempts, cfg, FAR, db, REPORT);
  }
}
