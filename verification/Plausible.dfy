/** What the games of every counted pair have in common, whatever the clients send. */
module Plausible {
  import opened Schema
  import opened Sanity
  import opened Outcomes
  import opened Runs
  import opened ExactlyOnce
  import opened Concurrent
  import opened Interleaved
  import Records
  import Safety

  /** Both games of pair p are plausible and were played with opposite colours. */
  ghost predicate PlausiblePair(db: Db, p: int) {
    && Row(db, p, 0).Some? && Row(db, p, 1).Some?
    && Counts(Row(db, p, 0).value.report) && Counts(Row(db, p, 1).value.report)
    && Row(db, p, 0).value.report.candidateIsWhite != Row(db, p, 1).value.report.candidateIsWhite
  }

  /** The pentanomial counts a recorded pair exactly if both its games are plausible, with opposite colours. */
  lemma RecordedCounts(db: Db, p: int, report: PairReport)
    requires report.Valid() && Recorded(db, p, report)
    ensures PairScore(db, p).Some? <==> PlausiblePair(db, p)
  {
    CheckGameIff(report.games[0]);
    CheckGameIff(report.games[1]);
  }

  lemma UnfinishedIsNotCounted(db: Db, p: int)
    requires !Done(db, p)
    ensures PairScore(db, p).None?
  {
  }

  /** In every reachable database the counted pairs are exactly the completed ones with two plausible games
      of opposite colours. */
  lemma CountedIffPlausible(cfg: Config, db: Db, p: int)
    requires Safety.Reachable(cfg, db)
    ensures PairScore(db, p).Some? <==> Done(db, p) && PlausiblePair(db, p)
  {
    if Done(db, p) {
      var run :| Legal(cfg, EMPTY_DB, run) && After(cfg, EMPTY_DB, run) == db;
      EmptyInv(cfg);
      var n, report := CompletedByOneBody(cfg, EMPTY_DB, run, p);
      RecordedCounts(db, p, report);
    } else {
      UnfinishedIsNotCounted(db, p);
    }
  }

  /** So it is however submits interleave. */
  lemma CountedIffPlausibleInterleaved(cfg: Config, s: State, p: int)
    requires ReachableState(cfg, s)
    ensures PairScore(s.db, p).Some? <==> Done(s.db, p) && PlausiblePair(s.db, p)
  {
    if Done(s.db, p) {
      var run :| LegalSteps(cfg, START, run) && AfterSteps(cfg, START, run) == s;
      var n, report := Records.CompletedByOneArrival(cfg, run, p);
      RecordedCounts(s.db, p, report);
    } else {
      UnfinishedIsNotCounted(s.db, p);
    }
  }
}
