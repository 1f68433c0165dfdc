/** When the LLR computation makes a transaction roll back (server/queue.cpp and
    server/test_lifecycle.cpp over common/gsprt.cpp). */
module Aborts {
  import opened Schema
  import opened Outcomes
  import opened Lifecycle
  import opened Queue
  import opened Invariants
  import opened Endings
  import opened Concurrent
  import opened Interleaved
  import Keeps
  import Llr
  import LlrDomain
  import Mirror
  import Mle
  import Safety
  import Sets

  /** A test whose LLR throws as soon as there is a pair. */
  predicate FarTest(kind: Kind) { kind.Sprt? && (LlrDomain.TooFar(kind.elo0) || LlrDomain.TooFar(kind.elo1)) }

  /** The configuration's LLR throws for hypotheses too far out. */
  ghost predicate ThrowsFar(cfg: Config) {
    forall elo0, elo1, penta: seq<nat> | |penta| == 5 && Total(penta) > 0 && (LlrDomain.TooFar(elo0) || LlrDomain.TooFar(elo1)) ::
      cfg.llr(elo0, elo1, penta).None?
  }

  /** With no category nearly empty it throws for no others. */
  ghost predicate ThrowsOnlyFar(cfg: Config) {
    forall elo0, elo1, penta: seq<nat> | |penta| == 5 && Total(penta) > 0 && LlrDomain.Modest(penta) && cfg.llr(elo0, elo1, penta).None? ::
      LlrDomain.TooFar(elo0) || LlrDomain.TooFar(elo1)
  }

  lemma GsprtThrowsFar(t: Llr.Tools, ttl: real, maxAttempts: nat)
    requires Llr.Sound(t)
    ensures ThrowsFar(Mirror.Gsprt(t, ttl, maxAttempts))
  {
    var cfg := Mirror.Gsprt(t, ttl, maxAttempts);
    forall elo0: real, elo1: real, penta: seq<nat> | |penta| == 5 && Total(penta) > 0 && (LlrDomain.TooFar(elo0) || LlrDomain.TooFar(elo1))
      ensures cfg.llr(elo0, elo1, penta).None?
    {
      TotalOfFive(penta);
      LlrDomain.FarLlrThrows(t, elo0, elo1, penta);
    }
  }

  lemma GsprtThrowsOnlyFar(t: Llr.Tools, ttl: real, maxAttempts: nat)
    requires Llr.Sound(t) && Mle.IsSolver(t.solve)
    ensures ThrowsOnlyFar(Mirror.Gsprt(t, ttl, maxAttempts))
  {
    var cfg := Mirror.Gsprt(t, ttl, maxAttempts);
    forall elo0: real, elo1: real, penta: seq<nat> |
        |penta| == 5 && Total(penta) > 0 && LlrDomain.Modest(penta) && cfg.llr(elo0, elo1, penta).None?
      ensures LlrDomain.TooFar(elo0) || LlrDomain.TooFar(elo1)
    {
      TotalOfFive(penta);
      LlrDomain.LlrThrows(t, elo0, elo1, penta);
    }
  }

  lemma FarRecomputeThrows(cfg: Config, db: Db, t: int)
    requires ThrowsFar(cfg) && t in db.tests && FarTest(db.tests[t].kind) && Total(PentaOf(db, t)) > 0
    ensures Recompute(cfg, db, t).None?
  {
    assert |PentaOf(db, t)| == 5;
  }

  lemma OnlyFarRecomputeThrows(cfg: Config, db: Db, t: int)
    requires ThrowsOnlyFar(cfg) && t in db.tests && LlrDomain.Modest(PentaOf(db, t)) && Recompute(cfg, db, t).None?
    ensures FarTest(db.tests[t].kind) && Total(PentaOf(db, t)) > 0
  {
    assert |PentaOf(db, t)| == 5;
  }

  /** A test counts no more pairs than it owns. */
  lemma CountsWithin(db: Db, t: int)
    ensures Total(PentaOf(db, t)) <= |Owned(db, t)|
    ensures |Owned(db, t)| <= LlrDomain.PAIR_LIMIT ==> LlrDomain.Modest(PentaOf(db, t))
  {
    PentaTotal(db, t);
    TotalOfFive(PentaOf(db, t));
    Sets.SubsetSize(CountedPairs(db, t), Owned(db, t));
  }

  /** No pair of such a test is ever counted. */
  lemma FarNeverCounts(cfg: Config, db: Db, t: int)
    requires ThrowsFar(cfg) && Inv(cfg, db) && t in db.tests && FarTest(db.tests[t].kind)
    ensures Total(PentaOf(db, t)) == 0
  {
    if Owned(db, t) == {} {
      CountsWithin(db, t);
    } else if Total(PentaOf(db, t)) > 0 {
      assert Synced(cfg, db, t);
      FarRecomputeThrows(cfg, db, t);
    }
  }

  lemma FarSubmitRollsBack(cfg: Config, db: Db, p: int, report: PairReport)
    requires ThrowsFar(cfg) && Inv(cfg, db) && report.Valid() && SubmitGuard(db, p, report.client) == AcceptedResult
    requires FarTest(db.tests[db.pairs[p].test].kind) && BothValid(report)
    ensures Submit(cfg, db, p, report) == (db, Aborted)
  {
    var t := db.pairs[p].test;
    OwnCounts(cfg, db, p, report);
    FarNeverCounts(cfg, db, t);
    FarRecomputeThrows(cfg, Insert(db, p, report), t);
  }

  /** Test t is small, or the counts it has with this pair leave no category nearly empty. */
  ghost predicate Plain(db: Db, p: int, report: PairReport)
    requires report.Valid() && p in db.pairs && db.pairs[p].test in db.tests
  {
    var t := db.pairs[p].test;
    db.tests[t].totalPairs <= LlrDomain.PAIR_LIMIT || LlrDomain.Modest(PentaOf(Insert(db, p, report), t))
  }

  /** A submit that passed the guard rolls back when its test is such a test and both games are valid,
      and unless a category is nearly empty only then. */
  lemma SubmitRollsBack(cfg: Config, db: Db, p: int, report: PairReport)
    requires ThrowsFar(cfg) && ThrowsOnlyFar(cfg) && Inv(cfg, db) && report.Valid()
    requires SubmitGuard(db, p, report.client) == AcceptedResult
    ensures FarTest(db.tests[db.pairs[p].test].kind) && BothValid(report) ==> Submit(cfg, db, p, report).1 == Aborted
    ensures Plain(db, p, report) && Submit(cfg, db, p, report).1 == Aborted
            ==> FarTest(db.tests[db.pairs[p].test].kind) && BothValid(report)
  {
    var t, own := db.pairs[p].test, Insert(db, p, report);
    OwnCounts(cfg, db, p, report);
    Keeps.InsertOwned(db, p, report, t);
    CountsWithin(own, t);
    assert TestOk(db, t) && p in Owned(db, t);
    if FarTest(db.tests[t].kind) {
      FarNeverCounts(cfg, db, t);
      if BothValid(report) {
        FarSubmitRollsBack(cfg, db, p, report);
      }
    } else if Plain(db, p, report) && Recompute(cfg, own, t).None? {
      OnlyFarRecomputeThrows(cfg, own, t);
    }
  }

  /** parse_test_spec admits such a test. With the real LLR none of its pairs is ever counted, and it
      ends without a verdict for either side. */
  lemma FarTestsNeverCount(tools: Llr.Tools, ttl: real, maxAttempts: nat, cfg: Config, db: Db, t: int)
    requires Llr.Sound(tools) && cfg == Mirror.Gsprt(tools, ttl, maxAttempts)
    requires Safety.Reachable(cfg, db) && t in db.tests && FarTest(db.tests[t].kind)
    ensures Total(PentaOf(db, t)) == 0
    ensures db.tests[t].status == Finished ==> db.tests[t].result == Inconclusive
  {
    GsprtThrowsFar(tools, ttl, maxAttempts);
    Safety.ReachableInv(cfg, db);
    FarNeverCounts(cfg, db, t);
    if db.tests[t].status == Finished {
      Safety.VerdictMatchesStatistics(cfg, db, t);
    }
  }

  /** The same with submits in flight. */
  lemma FarTestsNeverCountInterleaved(tools: Llr.Tools, ttl: real, maxAttempts: nat, cfg: Config, s: State, t: int)
    requires Llr.Sound(tools) && cfg == Mirror.Gsprt(tools, ttl, maxAttempts)
    requires ReachableState(cfg, s) && t in s.db.tests && FarTest(s.db.tests[t].kind)
    ensures Total(PentaOf(s.db, t)) == 0
  {
    GsprtThrowsFar(tools, ttl, maxAttempts);
    ReachableInv(cfg, s);
    FarNeverCounts(cfg, Veil(s.db), t);
    VeiledGamesOk(cfg, s.db);
    SamePairsSameView(cfg, s.db, Veil(s.db), t);
  }

  /** With the real LLR, a submit that passed its guard is rolled back when its test is such a test and
      both games are valid. Unless the test is large and leaves a category nearly empty, only then. */
  lemma WhenSubmitsRollBack(tools: Llr.Tools, ttl: real, maxAttempts: nat, cfg: Config, db: Db, p: int, report: PairReport)
    requires Llr.Sound(tools) && Mle.IsSolver(tools.solve) && cfg == Mirror.Gsprt(tools, ttl, maxAttempts)
    requires Safety.Reachable(cfg, db) && report.Valid() && SubmitGuard(db, p, report.client) == AcceptedResult
    ensures db.pairs[p].test in db.tests
    ensures var test, aborted := db.tests[db.pairs[p].test], Submit(cfg, db, p, report).1 == Aborted;
            && (FarTest(test.kind) && BothValid(report) ==> aborted)
            && (Plain(db, p, report) && aborted ==> FarTest(test.kind) && BothValid(report))
  {
    GsprtThrowsFar(tools, ttl, maxAttempts);
    GsprtThrowsOnlyFar(tools, ttl, maxAttempts);
    Safety.ReachableInv(cfg, db);
    SubmitRollsBack(cfg, db, p, report);
  }
}
