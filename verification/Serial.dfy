/** Running the transactions one after another is one of the interleavings: whatever database that reaches, the
    concurrent model reaches too. */
module Serial {
  import opened Schema
  import opened Lifecycle
  import opened Queue
  import opened Runs
  import opened Concurrent
  import opened Interleaved
  import opened LateCount
  import Safety

  /** One submit in flight, in this phase. */
  function Alone(db: Db, p: int, report: PairReport, phase: Phase): State { State(db, map[0 := Tx(p, report, phase)]) }

  lemma NoLocks(s: State, p: int, t: int)
    requires forall id | id in s.txs :: s.txs[id].phase.Arrived? || s.txs[id].phase.Inserted?
    ensures TestFree(s, t)
    ensures (forall id | id in s.txs :: s.txs[id].phase.Arrived?) ==> PairFree(s, p)
  {
  }

  /** The result arrives and passes the guard. */
  lemma GetsItsPair(cfg: Config, db: Db, p: int, report: PairReport)
    requires ReachableState(cfg, State(db, map[])) && report.Valid() && SubmitGuard(db, p, report.client) == AcceptedResult
    ensures ReachableState(cfg, Alone(db, p, report, Phase.Inserted))
  {
    var here := State(db, map[]);
    OneStepMore(cfg, here, Arrive(0, p, report));
    var arrived := Next(cfg, here, Arrive(0, p, report));
    assert arrived == Alone(db, p, report, Arrived(db));
    assert db.(pairs := db.pairs) == db;
    NoLocks(arrived, p, 0);
    OneStepMore(cfg, arrived, LockPair(0));
    assert Next(cfg, arrived, LockPair(0)) == Alone(db, p, report, Phase.Inserted);
  }

  /** Then it locks the tests row and computes. */
  lemma Computes(cfg: Config, db: Db, p: int, report: PairReport) returns (phase: Phase)
    requires ReachableState(cfg, Alone(db, p, report, Phase.Inserted)) && report.Valid() && p in db.pairs && db.pairs[p].test in db.tests
    requires Refresh(cfg, Insert(db, p, report), db.pairs[p].test).Some?
    ensures phase.Computed? && ReachableState(cfg, Alone(db, p, report, phase))
  {
    var t := db.pairs[p].test;
    var inserted := Alone(db, p, report, Phase.Inserted);
    NoLocks(inserted, p, t);
    OneStepMore(cfg, inserted, LockTest(0));
    var holding := Next(cfg, inserted, LockTest(0));
    assert holding == Alone(db, p, report, Holding(db.tests[t]));
    OneStepMore(cfg, holding, Compute(0));
    var st := Recompute(cfg, Insert(db, p, report), t).value;
    phase := Computed(db.tests[t], st, VerdictDue(cfg, Insert(db, p, report), t, st));
    assert Next(cfg, holding, Compute(0)) == Alone(db, p, report, phase);
  }

  /** An accepted submit, step by step. */
  lemma SubmitInSteps(cfg: Config, db: Db, p: int, report: PairReport)
    requires ReachableState(cfg, State(db, map[])) && report.Valid() && Submit(cfg, db, p, report).1 == AcceptedResult
    ensures ReachableState(cfg, State(Submit(cfg, db, p, report).0, map[]))
  {
    GetsItsPair(cfg, db, p, report);
    var phase := Computes(cfg, db, p, report);
    var computed := Alone(db, p, report, phase);
    CommitIsAtomic(cfg, computed, 0);
    OneStepMore(cfg, computed, Commit(0));
    assert computed.txs - {0} == map[];
  }

  lemma ActionInSteps(cfg: Config, db: Db, a: Action)
    requires ReachableState(cfg, State(db, map[])) && Enabled(db, a)
    ensures ReachableState(cfg, State(Apply(cfg, db, a), map[]))
  {
    if !a.DoSubmit? {
      GoOn(cfg, State(db, map[]), a, Apply(cfg, db, a));
    } else if Submit(cfg, db, a.pair, a.report).1 == AcceptedResult {
      SubmitInSteps(cfg, db, a.pair, a.report);
    }
  }

  lemma {:induction false} RunInSteps(cfg: Config, db: Db, run: seq<Action>)
    requires ReachableState(cfg, State(db, map[])) && Legal(cfg, db, run)
    ensures ReachableState(cfg, State(After(cfg, db, run), map[]))
    decreases |run|
  {
    if run != [] {
      ActionInSteps(cfg, db, run[0]);
      RunInSteps(cfg, Apply(cfg, db, run[0]), run[1..]);
    }
  }

  /** Every database a serial run reaches is reached by an interleaving, with no submit left in flight. */
  lemma SerialIsInterleaved(cfg: Config, db: Db)
    requires Safety.Reachable(cfg, db)
    ensures ReachableState(cfg, State(db, map[]))
  {
    var run :| Legal(cfg, EMPTY_DB, run) && After(cfg, EMPTY_DB, run) == db;
    assert LegalSteps(cfg, START, []) && AfterSteps(cfg, START, []) == START;
    RunInSteps(cfg, EMPTY_DB, run);
  }
}
