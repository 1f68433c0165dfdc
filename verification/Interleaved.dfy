/** What interleaved submits promise, over every run of the concurrent system. */
module Interleaved {
  import opened Schema
  import opened Outcomes
  import opened Sanity
  import opened Lifecycle
  import opened Queue
  import opened Invariants
  import opened Keeps
  import opened Runs
  import opened Transitions
  import opened Safety
  import opened ExactlyOnce
  import opened Endings
  import opened Concurrent
  import Sets

  ghost predicate LegalSteps(cfg: Config, s: State, run: seq<Step>)
    decreases |run|
  {
    run == [] || (StepEnabled(cfg, s, run[0]) && LegalSteps(cfg, Next(cfg, s, run[0]), run[1..]))
  }

  ghost function AfterSteps(cfg: Config, s: State, run: seq<Step>): State
    requires LegalSteps(cfg, s, run)
    decreases |run|
  {
    if run == [] then s else AfterSteps(cfg, Next(cfg, s, run[0]), run[1..])
  }

  ghost predicate ReachableState(cfg: Config, s: State) {
    exists run :: LegalSteps(cfg, START, run) && AfterSteps(cfg, START, run) == s
  }

  lemma {:induction false} RunStaysOk(cfg: Config, s: State, run: seq<Step>)
    requires Ok(cfg, s) && LegalSteps(cfg, s, run)
    ensures Ok(cfg, AfterSteps(cfg, s, run))
    decreases |run|
  {
    if run != [] {
      StepKeeps(cfg, s, run[0]);
      RunStaysOk(cfg, Next(cfg, s, run[0]), run[1..]);
    }
  }

  lemma ReachableOk(cfg: Config, s: State)
    requires ReachableState(cfg, s)
    ensures Ok(cfg, s)
  {
    var run :| LegalSteps(cfg, START, run) && AfterSteps(cfg, START, run) == s;
    EmptyInv(cfg);
    VeilKeeps(cfg, EMPTY_DB);
    RunStaysOk(cfg, START, run);
  }

  lemma ReachableInv(cfg: Config, s: State)
    requires ReachableState(cfg, s)
    ensures Inv(cfg, Veil(s.db))
  {
    ReachableOk(cfg, s);
  }

  lemma VeiledSynced(cfg: Config, db: Db, t: int)
    requires Inv(cfg, Veil(db)) && t in db.stats
    ensures GamesOk(db) && t in db.tests && Synced(cfg, db, t) && Owned(db, t) != {}
  {
    VeiledGamesOk(cfg, db);
    assert Synced(cfg, Veil(db), t) && t in Veil(db).tests;
    SamePairsSameView(cfg, db, Veil(db), t);
    SameViewSynced(cfg, db, Veil(db), t);
    assert Owned(Veil(db), t) == Owned(db, t);
  }

  lemma ReachableSynced(cfg: Config, s: State, t: int)
    requires ReachableState(cfg, s) && t in s.db.stats
    ensures GamesOk(s.db) && t in s.db.tests && Synced(cfg, s.db, t) && Owned(s.db, t) != {}
  {
    ReachableInv(cfg, s);
    VeiledSynced(cfg, s.db, t);
  }

  /** No update is lost: whatever the interleaving, the committed statistics are those of the
      committed games, and the history has one point for each number of valid pairs. */
  lemma NoUpdateIsLost(cfg: Config, s: State, t: int)
    requires ReachableState(cfg, s) && t in s.db.stats
    ensures t in s.db.tests && Recompute(cfg, s.db, t) == Some(s.db.stats[t])
    ensures t in s.db.history && |s.db.history[t]| == Total(s.db.stats[t].penta) + 1
    ensures forall i | 0 <= i < |s.db.history[t]| :: s.db.history[t][i].pairsValid == i
    ensures var st := s.db.stats[t];
            && |st.penta| == 5
            && st.wins + st.draws + st.losses == 2 * Total(st.penta)
            && 2 * st.wins + st.draws == st.penta[1] + 2 * st.penta[2] + 3 * st.penta[3] + 4 * st.penta[4]
  {
    ReachableSynced(cfg, s, t);
    SyncedAgrees(cfg, s.db, t);
  }

  /** Interleaved submits are as good as serial ones: a commit has exactly the effect the whole submit
      would have, run alone at that moment, unless the test has ended or the client was banned since
      the guard was read. */
  lemma CommitIsAtomic(cfg: Config, s: State, id: int)
    requires ReachableState(cfg, s) && StepEnabled(cfg, s, Commit(id))
    ensures var tx, after := s.txs[id], Next(cfg, s, Commit(id)).db;
            && Refresh(cfg, Insert(s.db, tx.pair, tx.report), s.db.pairs[tx.pair].test) == Some(after)
            && match SubmitGuard(s.db, tx.pair, tx.report.client)
               case AcceptedResult => Submit(cfg, s.db, tx.pair, tx.report) == (after, AcceptedResult)
               case ClientBanned => true
               case TestFinished => !HasStatus(s.db, s.db.pairs[tx.pair].test, Running)
               case _ => false
  {
    ReachableOk(cfg, s);
    var tx := s.txs[id];
    assert TxOk(cfg, s.db, tx);
    CommitIsRefresh(cfg, s.db, tx);
    assert RowOk(Veil(s.db), s.db.pairs[tx.pair]);
  }

  /** At most one test runs, none waits while none runs, and a running test has work left and calls
      for no verdict, between any two steps. */
  lemma SchedulerStaysSafe(cfg: Config, s: State)
    requires ReachableState(cfg, s)
    ensures forall t, u | HasStatus(s.db, t, Running) && HasStatus(s.db, u, Running) :: t == u
    ensures SomeTestIs(s.db, Queued) ==> SomeTestIs(s.db, Running)
    ensures forall t | HasStatus(s.db, t, Running) ::
              HasLivePair(s.db, t) && t in s.db.stats && Decide(cfg, s.db.tests[t].kind, s.db.stats[t]) == Continue
  {
    ReachableOk(cfg, s);
    var db := s.db;
    VeilAlike(db);
    AlikeStatus(db, Veil(db), Running);
    AlikeStatus(db, Veil(db), Queued);
    forall t | HasStatus(db, t, Running)
      ensures HasLivePair(db, t) && t in db.stats && Decide(cfg, db.tests[t].kind, db.stats[t]) == Continue
    {
      assert KeepsRunning(cfg, Veil(db), t);
      var p :| IsLive(Veil(db), p, t);
      assert IsLive(db, p, t);
    }
  }

  // ---------------------------------------------------------------------------
  // Each pair is committed once
  // ---------------------------------------------------------------------------

  predicate Commits(s: State, step: Step, p: int) { step.Commit? && step.id in s.txs && s.txs[step.id].pair == p }

  ghost function CommitCount(cfg: Config, s: State, run: seq<Step>, p: int): nat
    requires LegalSteps(cfg, s, run)
    decreases |run|
  {
    if run == [] then 0
    else (if Commits(s, run[0], p) then 1 else 0) + CommitCount(cfg, Next(cfg, s, run[0]), run[1..], p)
  }

  lemma EnvDone(cfg: Config, db: Db, a: Action, p: int)
    requires Inv(cfg, Veil(db)) && Enabled(db, a) && !a.DoSubmit?
    ensures Done(Apply(cfg, db, a), p) == Done(db, p)
  {
    if p in db.pairs {
      EnvPair(cfg, db, a, p);
    } else if p in Apply(cfg, db, a).pairs {
      NewPairsAreFresh(cfg, db, a, p);
    }
  }

  lemma CommitDoneHere(cfg: Config, db: Db, tx: Tx, p: int)
    requires TxOk(cfg, db, tx) && tx.phase.Computed?
    ensures Done(Written(db, tx), p) <==> Done(db, p) || p == tx.pair
    ensures !Done(db, tx.pair)
  {
    CommitRows(cfg, db, tx);
  }

  lemma CommitDone(cfg: Config, s: State, step: Step, p: int)
    requires Inv(cfg, Veil(s.db)) && (forall id | id in s.txs :: TxOk(cfg, s.db, s.txs[id])) && StepEnabled(cfg, s, step)
    ensures Done(Next(cfg, s, step).db, p) <==> Done(s.db, p) || Commits(s, step, p)
    ensures Commits(s, step, p) ==> !Done(s.db, p)
  {
    if step.Elsewhere? {
      EnvDone(cfg, s.db, step.a, p);
    } else if step.Commit? {
      CommitDoneHere(cfg, s.db, s.txs[step.id], p);
    }
  }

  /** However submits for one pair interleave, at most one commits, and the pair stays complete. */
  lemma {:induction false} CommittedAtMostOnce(cfg: Config, s: State, run: seq<Step>, p: int)
    requires Ok(cfg, s) && LegalSteps(cfg, s, run)
    ensures CommitCount(cfg, s, run, p) == if Done(AfterSteps(cfg, s, run).db, p) && !Done(s.db, p) then 1 else 0
    ensures Done(s.db, p) ==> Done(AfterSteps(cfg, s, run).db, p)
    decreases |run|
  {
    if run != [] {
      CommitDone(cfg, s, run[0], p);
      StepKeeps(cfg, s, run[0]);
      CommittedAtMostOnce(cfg, Next(cfg, s, run[0]), run[1..], p);
    }
  }

  // ---------------------------------------------------------------------------
  // The verdict is written once
  // ---------------------------------------------------------------------------

  lemma EndedRefresh(cfg: Config, db: Db, u: int, t: int)
    requires t in db.tests && Terminal(db.tests[t].status) && Refresh(cfg, db, u).Some?
    ensures t in Refresh(cfg, db, u).value.tests && Refresh(cfg, db, u).value.tests[t] == db.tests[t]
  {
    if u != t {
      RefreshElsewhere(cfg, db, u, t);
    }
  }

  lemma {:induction false} EndedRefreshAll(cfg: Config, db: Db, ts: set<int>, t: int)
    requires t in db.tests && Terminal(db.tests[t].status) && RefreshAll(cfg, db, ts).Some?
    ensures t in RefreshAll(cfg, db, ts).value.tests && RefreshAll(cfg, db, ts).value.tests[t] == db.tests[t]
    decreases |ts|
  {
    if ts != {} {
      var u := Sets.Min(ts);
      EndedRefresh(cfg, db, u, t);
      EndedRefreshAll(cfg, Refresh(cfg, db, u).value, ts - {u}, t);
    }
  }

  lemma EndedEnv(cfg: Config, db: Db, a: Action, t: int)
    requires t in db.tests && t < db.nextTest && Terminal(db.tests[t].status) && Enabled(db, a) && !a.DoSubmit?
    ensures t in Apply(cfg, db, a).tests && Apply(cfg, db, a).tests[t] == db.tests[t]
  {
    if a.DoRecover? {
      var ts, mid := TestsWithDiscards(cfg, db, a.locked), RecoverRows(cfg, db, a.locked);
      if RefreshAll(cfg, mid, ts).Some? {
        EndedRefreshAll(cfg, mid, ts, t);
      }
    } else if LeavesTest(cfg, db, a, t) {
      EnvTest(cfg, db, a, t);
    }
  }

  lemma EndedStep(cfg: Config, s: State, step: Step, t: int)
    requires Ok(cfg, s) && StepEnabled(cfg, s, step) && t in s.db.tests && Terminal(s.db.tests[t].status)
    ensures t in Next(cfg, s, step).db.tests && Next(cfg, s, step).db.tests[t] == s.db.tests[t]
  {
    if step.Elsewhere? {
      VeiledGamesOk(cfg, s.db);
      EndedEnv(cfg, s.db, step.a, t);
    } else if step.Commit? {
      var tx := s.txs[step.id];
      assert TxOk(cfg, s.db, tx);
      CommitIsRefresh(cfg, s.db, tx);
      EndedRefresh(cfg, Own(s.db, tx), s.db.pairs[tx.pair].test, t);
    }
  }

  /** The verdict is written at most once, also with submits in flight: a test that has ended keeps
      its status and its result for ever. */
  lemma {:induction false} VerdictIsFinal(cfg: Config, s: State, run: seq<Step>, t: int)
    requires Ok(cfg, s) && LegalSteps(cfg, s, run) && t in s.db.tests && Terminal(s.db.tests[t].status)
    ensures var end := AfterSteps(cfg, s, run).db; t in end.tests && end.tests[t] == s.db.tests[t]
    decreases |run|
  {
    if run != [] {
      EndedStep(cfg, s, run[0], t);
      StepKeeps(cfg, s, run[0]);
      VerdictIsFinal(cfg, Next(cfg, s, run[0]), run[1..], t);
    }
  }

  // ---------------------------------------------------------------------------
  // What does not carry over: the statistics of an ended test
  // ---------------------------------------------------------------------------

  predicate BothValid(report: PairReport)
    requires report.Valid()
  {
    CheckPair(report, 0) && CheckPair(report, 1)
  }

  lemma OwnPairScore(db: Db, p: int, report: PairReport)
    requires p in db.pairs && report.Valid()
    ensures PairScore(Insert(db, p, report), p).Some? <==> BothValid(report)
  {
  }

  /** What one more pair does to the statistics of its test. */
  lemma OwnCounts(cfg: Config, db: Db, p: int, report: PairReport)
    requires GamesOk(db) && report.Valid() && p in db.pairs && db.pairs[p].status == Leased && db.pairs[p].test in db.tests
    ensures var t, own := db.pairs[p].test, Insert(db, p, report);
            && Total(PentaOf(own, t)) == Total(PentaOf(db, t)) + (if BothValid(report) then 1 else 0)
            && (!BothValid(report) ==> Recompute(cfg, own, t) == Recompute(cfg, db, t))
  {
    OwnPairScore(db, p, report);
    if BothValid(report) {
      InsertCounts(db, p, report);
    } else {
      InsertSame(db, p, report, db.pairs[p].test);
      OwnGames(db, p, report);
      RecomputeFrame(cfg, db, Insert(db, p, report), db.pairs[p].test);
    }
  }

  lemma EndedCommit(cfg: Config, db: Db, tx: Tx)
    requires TxOk(cfg, db, tx) && tx.phase.Computed? && Terminal(db.tests[db.pairs[tx.pair].test].status)
    ensures Written(db, tx).stats == db.stats[db.pairs[tx.pair].test := tx.phase.st]
    ensures Written(db, tx).tests == db.tests
  {
  }

  lemma LateCommit(cfg: Config, db: Db, tx: Tx)
    requires TxOk(cfg, db, tx) && tx.phase.Computed? && GamesOk(db)
    requires Terminal(db.tests[db.pairs[tx.pair].test].status)
    requires db.pairs[tx.pair].test in db.stats
    requires Recompute(cfg, db, db.pairs[tx.pair].test) == Some(db.stats[db.pairs[tx.pair].test])
    ensures var t, after := db.pairs[tx.pair].test, Written(db, tx);
            && t in after.stats && after.tests == db.tests
            && Total(after.stats[t].penta) == Total(db.stats[t].penta) + (if BothValid(tx.report) then 1 else 0)
            && (after.stats[t] == db.stats[t] <==> !BothValid(tx.report))
  {
    EndedCommit(cfg, db, tx);
    OwnCounts(cfg, db, tx.pair, tx.report);
  }

  /** A submit in flight when its test ends still commits into the ended test. It leaves the verdict
      alone, but the statistics that verdict was based on change, exactly when both its games are
      valid. Run one at a time, transactions never do that (EndedForever). */
  lemma LateCommitMovesStatistics(cfg: Config, s: State, id: int)
    requires ReachableState(cfg, s) && StepEnabled(cfg, s, Commit(id))
    requires Terminal(s.db.tests[s.db.pairs[s.txs[id].pair].test].status)
    ensures var t, report, after := s.db.pairs[s.txs[id].pair].test, s.txs[id].report, Next(cfg, s, Commit(id)).db;
            && t in s.db.stats && t in after.stats && after.tests == s.db.tests
            && Total(after.stats[t].penta) == Total(s.db.stats[t].penta) + (if BothValid(report) then 1 else 0)
            && (after.stats[t] == s.db.stats[t] <==> !BothValid(report))
  {
    ReachableOk(cfg, s);
    CommitsLate(cfg, s, id);
  }

  lemma LegalCons(cfg: Config, s: State, step: Step, rest: seq<Step>)
    requires StepEnabled(cfg, s, step) && LegalSteps(cfg, Next(cfg, s, step), rest)
    ensures LegalSteps(cfg, s, [step] + rest)
    ensures AfterSteps(cfg, s, [step] + rest) == AfterSteps(cfg, Next(cfg, s, step), rest)
  {
    assert ([step] + rest)[1..] == rest;
  }

  lemma StopUnderSubmit(cfg: Config, s: State, id: int, t: int)
    requires Ok(cfg, s) && id in s.txs && s.txs[id].phase.Inserted? && s.db.pairs[s.txs[id].pair].test == t
    requires HasStatus(s.db, t, Running) && TestFree(s, t)
    ensures StepEnabled(cfg, s, Elsewhere(DoStop(t)))
    ensures var s1 := Next(cfg, s, Elsewhere(DoStop(t)));
            && s1.txs == s.txs && s1.db.pairs == s.db.pairs && s1.db.games == s.db.games && s1.db.stats == s.db.stats
            && HasStatus(s1.db, t, Stopped) && s1.db.tests[t].kind == s.db.tests[t].kind && TestFree(s1, t)
  {
    PromoteSteps(SetStatus(s.db, t, Stopped));
    StopSameRows(s.db, t);
    var s1 := Next(cfg, s, Elsewhere(DoStop(t)));
    assert forall i :: LocksTest(s1, i, t) ==> LocksTest(s, i, t);
  }

  /** A submit whose pair is locked goes on to commit, if nothing comes in between. */
  lemma GoesThrough(cfg: Config, s: State, id: int, t: int) returns (s2: State, s3: State)
    requires Ok(cfg, s) && id in s.txs && s.txs[id].phase.Inserted? && s.txs[id].pair in s.db.pairs
    requires s.txs[id].report.Valid() && s.db.pairs[s.txs[id].pair].test == t && t in s.db.tests && TestFree(s, t)
    requires Recompute(cfg, Own(s.db, s.txs[id]), t).Some?
    ensures StepEnabled(cfg, s, LockTest(id)) && s2 == Next(cfg, s, LockTest(id))
    ensures StepEnabled(cfg, s2, Compute(id)) && s3 == Next(cfg, s2, Compute(id))
    ensures Ok(cfg, s3) && s3.db == s.db && StepEnabled(cfg, s3, Commit(id))
    ensures s3.txs[id].pair == s.txs[id].pair && s3.txs[id].report == s.txs[id].report
  {
    s2 := Next(cfg, s, LockTest(id));
    StepKeeps(cfg, s, LockTest(id));
    s3 := Next(cfg, s2, Compute(id));
    StepKeeps(cfg, s2, Compute(id));
  }

  lemma LegalThree(cfg: Config, s: State, a: Step, b: Step, c: Step, s2: State, s3: State)
    requires StepEnabled(cfg, s, a) && s2 == Next(cfg, s, a)
    requires StepEnabled(cfg, s2, b) && s3 == Next(cfg, s2, b) && StepEnabled(cfg, s3, c)
    ensures LegalSteps(cfg, s, [a, b, c]) && AfterSteps(cfg, s, [a, b, c]) == Next(cfg, s3, c)
  {
    LegalCons(cfg, s3, c, []);
    LegalCons(cfg, s2, b, [c]);
    LegalCons(cfg, s, a, [b, c]);
    assert [a] + [b, c] == [a, b, c] && [b] + [c] == [b, c] && [c] + [] == [c];
  }

  /** From a locked pair of an ended test to the commit. */
  lemma LateThrough(cfg: Config, s: State, id: int, t: int)
    requires Ok(cfg, s) && id in s.txs && s.txs[id].phase.Inserted? && s.txs[id].pair in s.db.pairs
    requires s.txs[id].report.Valid() && s.db.pairs[s.txs[id].pair].test == t && TestFree(s, t)
    requires t in s.db.tests && Terminal(s.db.tests[t].status)
    requires BothValid(s.txs[id].report) && Recompute(cfg, Own(s.db, s.txs[id]), t).Some?
    ensures var run := [LockTest(id), Compute(id), Commit(id)];
            && LegalSteps(cfg, s, run)
            && var end := AfterSteps(cfg, s, run).db;
               && end.tests == s.db.tests && t in s.db.stats && t in end.stats
               && Total(end.stats[t].penta) == Total(s.db.stats[t].penta) + 1
  {
    var s2, s3 := GoesThrough(cfg, s, id, t);
    CommitsLate(cfg, s3, id);
    LegalThree(cfg, s, LockTest(id), Compute(id), Commit(id), s2, s3);
  }

  /** It happens whenever an administrator stops a test under a submit that has passed the guard. */
  lemma StoppedTestStillCounts(cfg: Config, s: State, id: int, t: int)
    requires ReachableState(cfg, s) && id in s.txs && s.txs[id].phase.Inserted? && s.txs[id].report.Valid()
    requires s.txs[id].pair in s.db.pairs && s.db.pairs[s.txs[id].pair].test == t
    requires HasStatus(s.db, t, Running) && TestFree(s, t)
    requires BothValid(s.txs[id].report) && Recompute(cfg, Own(s.db, s.txs[id]), t).Some?
    ensures StepEnabled(cfg, s, Elsewhere(DoStop(t)))
    ensures var stopped, run := Next(cfg, s, Elsewhere(DoStop(t))), [LockTest(id), Compute(id), Commit(id)];
            && HasStatus(stopped.db, t, Stopped) && LegalSteps(cfg, stopped, run)
            && var end := AfterSteps(cfg, stopped, run).db;
               && HasStatus(end, t, Stopped) && t in stopped.db.stats && t in end.stats
               && Total(end.stats[t].penta) == Total(stopped.db.stats[t].penta) + 1
  {
    ReachableOk(cfg, s);
    StopUnderSubmit(cfg, s, id, t);
    var s1, tx := Next(cfg, s, Elsewhere(DoStop(t))), s.txs[id];
    StepKeeps(cfg, s, Elsewhere(DoStop(t)));
    VeiledGamesOk(cfg, s.db);
    OwnGames(s.db, tx.pair, tx.report);
    SamePairsSameView(cfg, Own(s.db, tx), Own(s1.db, tx), t);
    LateThrough(cfg, s1, id, t);
  }

  lemma CommitsLate(cfg: Config, s: State, id: int)
    requires Ok(cfg, s) && StepEnabled(cfg, s, Commit(id))
    requires Terminal(s.db.tests[s.db.pairs[s.txs[id].pair].test].status)
    ensures var t, report, after := s.db.pairs[s.txs[id].pair].test, s.txs[id].report, Next(cfg, s, Commit(id)).db;
            && t in s.db.stats && t in after.stats && after.tests == s.db.tests
            && Total(after.stats[t].penta) == Total(s.db.stats[t].penta) + (if BothValid(report) then 1 else 0)
            && (after.stats[t] == s.db.stats[t] <==> !BothValid(report))
  {
    assert TxOk(cfg, s.db, s.txs[id]);
    PairHasStats(cfg, s.db, s.txs[id].pair);
    LateCommit(cfg, s.db, s.txs[id]);
  }

  lemma PairHasStats(cfg: Config, db: Db, p: int)
    requires Inv(cfg, Veil(db)) && p in db.pairs
    ensures var t := db.pairs[p].test;
            GamesOk(db) && t in db.tests && t in db.stats && Recompute(cfg, db, t) == Some(db.stats[t])
  {
    var t := db.pairs[p].test;
    assert RowOk(Veil(db), db.pairs[p]);
    assert p in Owned(Veil(db), t) && Synced(cfg, Veil(db), t);
    VeiledSynced(cfg, db, t);
  }
}
