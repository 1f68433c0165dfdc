/** A run from the empty database in which a stopped test still counts a pair. */
module LateCount {
  import opened Schema
  import opened Outcomes
  import opened Lifecycle
  import opened Queue
  import opened Concurrent
  import opened Interleaved
  import opened FirstPair

  /** One more transaction, with no submit in flight. */
  lemma GoOn(cfg: Config, s: State, a: Action, after: Db)
    requires ReachableState(cfg, s) && s.txs == map[] && Enabled(s.db, a) && !a.DoSubmit? && after == Apply(cfg, s.db, a)
    ensures ReachableState(cfg, State(after, map[]))
  {
    assert forall p :: PairFree(s, p);
    assert forall t :: TestFree(s, t);
    assert Respects(cfg, s, a);
    OneStepMore(cfg, s, Elsewhere(a));
  }

  lemma OneStepMore(cfg: Config, s: State, step: Step)
    requires ReachableState(cfg, s) && StepEnabled(cfg, s, step)
    ensures ReachableState(cfg, Next(cfg, s, step))
  {
    var run :| LegalSteps(cfg, START, run) && AfterSteps(cfg, START, run) == s;
    AppendStep(cfg, START, run, step);
  }

  lemma {:induction false} AppendStep(cfg: Config, s: State, run: seq<Step>, step: Step)
    requires LegalSteps(cfg, s, run) && StepEnabled(cfg, AfterSteps(cfg, s, run), step)
    ensures LegalSteps(cfg, s, run + [step]) && AfterSteps(cfg, s, run + [step]) == Next(cfg, AfterSteps(cfg, s, run), step)
    decreases |run|
  {
    if run == [] {
      LegalCons(cfg, s, step, []);
      assert [] + [step] == [step] + [];
    } else {
      AppendStep(cfg, Next(cfg, s, run[0]), run[1..], step);
      LegalCons(cfg, s, run[0], run[1..] + [step]);
      assert run + [step] == [run[0]] + (run[1..] + [step]);
    }
  }

  lemma ReadyIsReachable(cfg: Config) returns (db: Db)
    ensures Ready(Gauntlet, db) && ReachableState(cfg, State(db, map[]))
  {
    assert LegalSteps(cfg, START, []) && AfterSteps(cfg, START, []) == START;
    var db1 := Registered(cfg);
    GoOn(cfg, START, REGISTER, db1);
    var db2 := TestInserted(cfg, Gauntlet, db1);
    GoOn(cfg, State(db1, map[]), InsertOf(Gauntlet), db2);
    var db3 := Admitted(cfg, Gauntlet, db2);
    GoOn(cfg, State(db2, map[]), ADMIT, db3);
    Claimable(Gauntlet, db3);
    db := Claimed(cfg, Gauntlet, db3);
    GoOn(cfg, State(db3, map[]), CLAIM, db);
  }

  /** The result arrives, and its pair is locked. */
  lemma Locked(cfg: Config, db: Db) returns (s: State)
    requires Ready(Gauntlet, db) && ReachableState(cfg, State(db, map[]))
    ensures ReachableState(cfg, s) && s == State(db, map[0 := Tx(1, REPORT, Phase.Inserted)])
  {
    var here := State(db, map[]);
    OneStepMore(cfg, here, Arrive(0, 1, REPORT));
    var arrived := Next(cfg, here, Arrive(0, 1, REPORT));
    assert arrived.txs == map[0 := Tx(1, REPORT, Arrived(db))];
    assert db.(pairs := db.pairs) == db;
    assert PairFree(arrived, 1);
    OneStepMore(cfg, arrived, LockPair(0));
    s := Next(cfg, arrived, LockPair(0));
    assert s.txs == map[0 := Tx(1, REPORT, Phase.Inserted)];
  }

  lemma {:induction false} RunOn(cfg: Config, s: State, run: seq<Step>)
    requires ReachableState(cfg, s) && LegalSteps(cfg, s, run)
    ensures ReachableState(cfg, AfterSteps(cfg, s, run))
    decreases |run|
  {
    if run != [] {
      OneStepMore(cfg, s, run[0]);
      RunOn(cfg, Next(cfg, s, run[0]), run[1..]);
    }
  }

  lemma GauntletsRecompute(cfg: Config, db: Db, t: int)
    requires t in db.tests && db.tests[t].kind == Gauntlet
    ensures Recompute(cfg, db, t).Some?
  {
  }

  const LATE: seq<Step> := [LockTest(0), Compute(0), Commit(0)]

  /** From the empty database, on any configuration: a test is stopped while a result is on its way, and
      the result still counts. */
  lemma AStoppedTestCounts(cfg: Config) returns (stopped: State, end: State)
    ensures ReachableState(cfg, stopped) && ReachableState(cfg, end)
    ensures LegalSteps(cfg, stopped, LATE) && end == AfterSteps(cfg, stopped, LATE)
    ensures HasStatus(stopped.db, 1, Stopped) && HasStatus(end.db, 1, Stopped)
    ensures 1 in stopped.db.stats && 1 in end.db.stats
    ensures Total(end.db.stats[1].penta) == Total(stopped.db.stats[1].penta) + 1
  {
    var db := ReadyIsReachable(cfg);
    var s := Locked(cfg, db);
    BothGamesValid();
    GauntletsRecompute(cfg, Own(s.db, s.txs[0]), 1);
    StoppedTestStillCounts(cfg, s, 0, 1);
    stopped := Next(cfg, s, Elsewhere(DoStop(1)));
    OneStepMore(cfg, s, Elsewhere(DoStop(1)));
    end := AfterSteps(cfg, stopped, LATE);
    RunOn(cfg, stopped, LATE);
  }
}
