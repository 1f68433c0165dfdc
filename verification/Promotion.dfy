/** Which test starts: whatever transaction starts a test, no test that still waits comes before it. */
module Promotion {
  import opened Schema
  import opened Lifecycle
  import opened Queue
  import opened Invariants
  import opened Concurrent
  import opened Interleaved
  import Sets

  /** Every test that started is the first of those that still wait. */
  ghost predicate StartsFirst(db: Db, after: Db) {
    forall t | HasStatus(after, t, Running) && !HasStatus(db, t, Running) :: NoneBefore(after, t)
  }

  /** No test has come to wait, and no test that waits has changed. */
  ghost predicate NoNewWaiting(db: Db, after: Db) {
    forall u | HasStatus(after, u, Queued) :: u in db.tests && after.tests[u] == db.tests[u]
  }

  lemma PromoteStarts(db: Db)
    ensures StartsFirst(db, Promote(db)) && NoNewWaiting(db, Promote(db))
  {
    var first := PromoteEffect(db);
    forall t | HasStatus(Promote(db), t, Running) && !HasStatus(db, t, Running) ensures NoneBefore(Promote(db), t) {
      assert t == first;
      assert forall u | HasStatus(Promote(db), u, Queued) :: HasStatus(db, u, Queued);
    }
  }

  /** A promotion after a change that starts no test and makes none wait. */
  lemma PromoteAfter(db: Db, mid: Db)
    requires forall t | HasStatus(mid, t, Running) :: HasStatus(db, t, Running)
    ensures StartsFirst(db, Promote(mid))
  {
    PromoteStarts(mid);
  }

  lemma FinishStarts(db: Db, t: int, result: TestResult)
    requires t in db.tests
    ensures StartsFirst(db, Finish(db, t, result)) && NoNewWaiting(db, Finish(db, t, result))
  {
    var ended := Change(db, t, Finished, result);
    PromoteStarts(ended);
    PromoteAfter(db, ended);
  }

  lemma RefreshStarts(cfg: Config, db: Db, t: int)
    requires Refresh(cfg, db, t).Some?
    ensures StartsFirst(db, Refresh(cfg, db, t).value) && NoNewWaiting(db, Refresh(cfg, db, t).value)
  {
    if t in db.tests {
      var st := Recompute(cfg, db, t).value;
      var recorded := Record(db, t, st);
      assert forall u, s :: HasStatus(recorded, u, s) == HasStatus(db, u, s);
      match Decide(cfg, db.tests[t].kind, st)
      case AcceptH1 => FinishStarts(recorded, t, Accepted);
      case AcceptH0 => FinishStarts(recorded, t, Rejected);
      case Continue => FinishStarts(recorded, t, if db.tests[t].kind.Sprt? then Inconclusive else AllPlayed);
    }
  }

  /** One such change after another. */
  lemma Then(db: Db, mid: Db, after: Db)
    requires StartsFirst(db, mid) && NoNewWaiting(db, mid) && StartsFirst(mid, after) && NoNewWaiting(mid, after)
    requires forall t | HasStatus(mid, t, Running) && HasStatus(after, t, Running) :: after.tests[t] == mid.tests[t]
    ensures StartsFirst(db, after) && NoNewWaiting(db, after)
  {
    forall t | HasStatus(after, t, Running) && !HasStatus(db, t, Running) ensures NoneBefore(after, t) {
      if HasStatus(mid, t, Running) {
        assert NoneBefore(mid, t);
        assert forall u | HasStatus(after, u, Queued) :: HasStatus(mid, u, Queued);
      }
    }
    forall u | HasStatus(after, u, Queued) ensures u in db.tests && after.tests[u] == db.tests[u] {
      assert HasStatus(mid, u, Queued);
    }
  }

  lemma {:induction false} AllStayRunning(cfg: Config, db: Db, ts: set<int>)
    requires RefreshAll(cfg, db, ts).Some?
    ensures var after := RefreshAll(cfg, db, ts).value;
            forall u | HasStatus(db, u, Running) && HasStatus(after, u, Running) :: after.tests[u] == db.tests[u]
    ensures var after := RefreshAll(cfg, db, ts).value;
            forall u | HasStatus(db, u, Finished) :: HasStatus(after, u, Finished)
    decreases |ts|
  {
    if ts != {} {
      var t := Sets.Min(ts);
      var mid := Refresh(cfg, db, t).value;
      if t in db.tests {
        RefreshSteps(cfg, db, t);
      }
      AllStayRunning(cfg, mid, ts - {t});
      forall u | HasStatus(db, u, Running) && HasStatus(RefreshAll(cfg, db, ts).value, u, Running)
        ensures RefreshAll(cfg, db, ts).value.tests[u] == db.tests[u]
      {
        assert HasStatus(mid, u, Running) || HasStatus(mid, u, Finished);
      }
    }
  }

  lemma {:induction false} RefreshAllStarts(cfg: Config, db: Db, ts: set<int>)
    requires RefreshAll(cfg, db, ts).Some?
    ensures StartsFirst(db, RefreshAll(cfg, db, ts).value) && NoNewWaiting(db, RefreshAll(cfg, db, ts).value)
    decreases |ts|
  {
    if ts != {} {
      var t := Sets.Min(ts);
      var mid := Refresh(cfg, db, t).value;
      RefreshStarts(cfg, db, t);
      RefreshAllStarts(cfg, mid, ts - {t});
      AllStayRunning(cfg, mid, ts - {t});
      Then(db, mid, RefreshAll(cfg, mid, ts - {t}).value);
    }
  }

  lemma RecoverStarts(cfg: Config, db: Db, locked: set<int>)
    ensures StartsFirst(db, Recover(cfg, db, locked))
  {
    var ts, mid := TestsWithDiscards(cfg, db, locked), RecoverRows(cfg, db, locked);
    if RefreshAll(cfg, mid, ts).Some? {
      RefreshAllStarts(cfg, mid, ts);
      assert forall t :: HasStatus(mid, t, Running) == HasStatus(db, t, Running);
    }
  }

  lemma SubmitStarts(cfg: Config, db: Db, p: int, report: PairReport)
    requires report.Valid()
    ensures StartsFirst(db, Submit(cfg, db, p, report).0)
  {
    if SubmitGuard(db, p, report.client) == AcceptedResult {
      var own, t := Insert(db, p, report), db.pairs[p].test;
      if Refresh(cfg, own, t).Some? {
        RefreshStarts(cfg, own, t);
        assert forall u :: HasStatus(own, u, Running) == HasStatus(db, u, Running);
      }
    }
  }

  lemma SmokeCommitStarts(cfg: Config, db: Db, t: int, built: bool, orders: seq<real>)
    ensures StartsFirst(db, SmokeCommit(cfg, db, t, built, orders))
  {
    if HasStatus(db, t, Validating) && built && |orders| >= db.tests[t].totalPairs {
      var queued := SetStatus(AddPairs(db, t, orders), t, Queued);
      if Refresh(cfg, queued, t).Some? {
        var mid := Record(queued, t, Recompute(cfg, queued, t).value);
        assert Refresh(cfg, queued, t) == Some(mid);
        assert forall u | HasStatus(mid, u, Running) :: HasStatus(db, u, Running);
        PromoteAfter(db, mid);
      }
    }
  }

  /** Whenever a transaction starts a test, no test is left waiting that has a higher priority, or the same
      priority and is older, or both the same and a smaller id. */
  lemma FirstInLineStarts(cfg: Config, db: Db, a: Action)
    requires Enabled(db, a)
    ensures forall t, u |
              HasStatus(Apply(cfg, db, a), t, Running) && !HasStatus(db, t, Running) && HasStatus(Apply(cfg, db, a), u, Queued) ::
              var x, y := Apply(cfg, db, a).tests[t], Apply(cfg, db, a).tests[u];
              x.priority > y.priority
              || (x.priority == y.priority && (x.createdAt < y.createdAt || (x.createdAt == y.createdAt && t <= u)))
  {
    ApplyStarts(cfg, db, a);
  }

  lemma ApplyStarts(cfg: Config, db: Db, a: Action)
    requires Enabled(db, a)
    ensures StartsFirst(db, Apply(cfg, db, a))
  {
    match a
    case DoSubmit(p, report) => SubmitStarts(cfg, db, p, report);
    case DoRecover(locked) => RecoverStarts(cfg, db, locked);
    case DoSmokeCommit(t, built, orders) => SmokeCommitStarts(cfg, db, t, built, orders);
    case DoPromote => PromoteStarts(db);
    case DoStop(t) =>
      if t in db.tests {
        PromoteAfter(db, SetStatus(db, t, Stopped));
      }
    case _ =>
  }

  /** So it is with submits in flight, in every step of every interleaving. */
  lemma FirstInLineStartsInterleaved(cfg: Config, s: State, step: Step)
    requires ReachableState(cfg, s) && StepEnabled(cfg, s, step)
    ensures forall t, u |
              HasStatus(Next(cfg, s, step).db, t, Running) && !HasStatus(s.db, t, Running) && HasStatus(Next(cfg, s, step).db, u, Queued) ::
              var x, y := Next(cfg, s, step).db.tests[t], Next(cfg, s, step).db.tests[u];
              x.priority > y.priority
              || (x.priority == y.priority && (x.createdAt < y.createdAt || (x.createdAt == y.createdAt && t <= u)))
  {
    if step.Elsewhere? {
      ApplyStarts(cfg, s.db, step.a);
    } else if step.Commit? {
      ReachableOk(cfg, s);
      var tx := s.txs[step.id];
      assert TxOk(cfg, s.db, tx);
      CommitIsRefresh(cfg, s.db, tx);
      RefreshStarts(cfg, Own(s.db, tx), s.db.pairs[tx.pair].test);
      assert forall u :: HasStatus(Own(s.db, tx), u, Running) == HasStatus(s.db, u, Running);
    }
  }
}
