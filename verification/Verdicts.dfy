/** With submits in flight a verdict need not fit the statistics for ever (LateCount), but it fits those
    of the step that wrote it. */
module Verdicts {
  import opened Schema
  import opened Lifecycle
  import opened Queue
  import opened Invariants
  import opened Transitions
  import opened Concurrent
  import opened Interleaved
  import Safety
  import Sets

  /** If test t has just ended with a verdict, it is the one its stored statistics call for. */
  ghost predicate EndsDuly(cfg: Config, db: Db, after: Db, t: int) {
    HasStatus(db, t, Running) && HasStatus(after, t, Finished) ==> t in after.stats && Due(cfg, after, t, after.tests[t].result)
  }

  lemma FinishedDuly(cfg: Config, mid: Db, t: int, result: TestResult)
    requires t in mid.tests && t in mid.stats && Due(cfg, mid, t, result)
    ensures var after := Finish(mid, t, result);
            t in after.tests && t in after.stats && Due(cfg, after, t, after.tests[t].result)
  {
    var ended := Change(mid, t, Finished, result);
    PromoteSteps(ended);
    assert forall p :: IsLive(ended, p, t) == IsLive(mid, p, t);
    assert forall p :: IsLive(Promote(ended), p, t) == IsLive(mid, p, t);
  }

  lemma SettledDuly(cfg: Config, mid: Db, t: int, st: Stats)
    requires t in mid.tests && t in mid.stats && mid.stats[t] == st
    ensures EndsDuly(cfg, mid, Settle(cfg, mid, t, st), t)
  {
    if mid.tests[t].status == Running {
      match Decide(cfg, mid.tests[t].kind, st)
      case AcceptH1 => FinishedDuly(cfg, mid, t, Accepted);
      case AcceptH0 => FinishedDuly(cfg, mid, t, Rejected);
      case Continue =>
        if !HasLivePair(mid, t) {
          FinishedDuly(cfg, mid, t, if mid.tests[t].kind.Sprt? then Inconclusive else AllPlayed);
        }
    }
  }

  lemma RefreshedDuly(cfg: Config, db: Db, u: int, t: int)
    requires Refresh(cfg, db, u).Some?
    ensures EndsDuly(cfg, db, Refresh(cfg, db, u).value, t)
  {
    if HasStatus(db, t, Running) && u in db.tests {
      if u == t {
        var st := Recompute(cfg, db, t).value;
        SettledDuly(cfg, Record(db, t, st), t, st);
      } else {
        RefreshElsewhere(cfg, db, u, t);
      }
    }
  }

  /** Refreshing other tests leaves what EndsDuly reads of test t. */
  lemma {:induction false} OthersRefreshed(cfg: Config, db: Db, ts: set<int>, t: int)
    requires t in db.tests && db.tests[t].status != Queued && t in db.stats && t !in ts && RefreshAll(cfg, db, ts).Some?
    ensures var after := RefreshAll(cfg, db, ts).value;
            && t in after.tests && after.tests[t] == db.tests[t] && t in after.stats && after.stats[t] == db.stats[t]
            && after.pairs == db.pairs
    decreases |ts|
  {
    if ts != {} {
      var u := Sets.Min(ts);
      RefreshElsewhere(cfg, db, u, t);
      RefreshSamePairs(cfg, db, u);
      if u in db.tests {
        RefreshSteps(cfg, db, u);
      }
      OthersRefreshed(cfg, Refresh(cfg, db, u).value, ts - {u}, t);
    }
  }

  lemma StaysDue(cfg: Config, db: Db, after: Db, t: int)
    requires t in db.tests && t in db.stats && Due(cfg, db, t, db.tests[t].result)
    requires t in after.tests && after.tests[t] == db.tests[t] && t in after.stats && after.stats[t] == db.stats[t]
    requires after.pairs == db.pairs
    ensures Due(cfg, after, t, after.tests[t].result)
  {
    assert forall p :: IsLive(after, p, t) == IsLive(db, p, t);
  }

  lemma {:induction false} AllRefreshedDuly(cfg: Config, db: Db, ts: set<int>, t: int)
    requires RefreshAll(cfg, db, ts).Some?
    ensures EndsDuly(cfg, db, RefreshAll(cfg, db, ts).value, t)
    decreases |ts|
  {
    if ts != {} && HasStatus(db, t, Running) {
      var u := Sets.Min(ts);
      var mid := Refresh(cfg, db, u).value;
      RefreshedDuly(cfg, db, u, t);
      if u in db.tests {
        RefreshSteps(cfg, db, u);
      }
      if HasStatus(mid, t, Running) {
        AllRefreshedDuly(cfg, mid, ts - {u}, t);
      } else {
        assert u == t by {
          if u != t {
            RefreshElsewhere(cfg, db, u, t);
          }
        }
        OthersRefreshed(cfg, mid, ts - {u}, t);
        StaysDue(cfg, mid, RefreshAll(cfg, mid, ts - {u}).value, t);
      }
    }
  }

  lemma RecoveredDuly(cfg: Config, db: Db, locked: set<int>, t: int)
    ensures EndsDuly(cfg, db, Recover(cfg, db, locked), t)
  {
    var ts, mid := TestsWithDiscards(cfg, db, locked), RecoverRows(cfg, db, locked);
    if RefreshAll(cfg, mid, ts).Some? {
      AllRefreshedDuly(cfg, mid, ts, t);
    }
  }

  /** Of the transactions that are no submits only a recovery gives a verdict. */
  lemma EnvEndsDuly(cfg: Config, db: Db, a: Action, t: int)
    requires Enabled(db, a) && !a.DoSubmit? && (t in db.tests ==> t < db.nextTest)
    ensures EndsDuly(cfg, db, Apply(cfg, db, a), t)
  {
    if HasStatus(db, t, Running) {
      if a.DoRecover? {
        RecoveredDuly(cfg, db, a.locked, t);
      } else if a.DoStop? && a.test == t {
        PromoteSteps(SetStatus(db, t, Stopped));
      } else if LeavesTest(cfg, db, a, t) {
        EnvTest(cfg, db, a, t);
      }
    }
  }

  lemma StepEndsDuly(cfg: Config, s: State, step: Step, t: int)
    requires Ok(cfg, s) && StepEnabled(cfg, s, step)
    ensures EndsDuly(cfg, s.db, Next(cfg, s, step).db, t)
  {
    if step.Elsewhere? {
      VeiledGamesOk(cfg, s.db);
      EnvEndsDuly(cfg, s.db, step.a, t);
    } else if step.Commit? {
      var tx := s.txs[step.id];
      assert TxOk(cfg, s.db, tx);
      CommitIsRefresh(cfg, s.db, tx);
      RefreshedDuly(cfg, Own(s.db, tx), s.db.pairs[tx.pair].test, t);
    }
  }

  lemma DueSays(cfg: Config, db: Db, t: int)
    requires t in db.tests && t in db.stats && Recompute(cfg, db, t) == Some(db.stats[t]) && Due(cfg, db, t, db.tests[t].result)
    ensures Safety.VerdictSays(cfg, db, t)
  {
  }

  /** However submits interleave: the step that gives a test its verdict stores the statistics of the
      games counted at that moment, and the verdict is the one they call for. The test keeps it for ever
      (VerdictIsFinal). */
  lemma VerdictFitsItsStep(cfg: Config, s: State, step: Step, t: int)
    requires ReachableState(cfg, s) && StepEnabled(cfg, s, step)
    requires HasStatus(s.db, t, Running) && HasStatus(Next(cfg, s, step).db, t, Finished)
    ensures var after := Next(cfg, s, step).db;
            && t in after.stats && Recompute(cfg, after, t) == Some(after.stats[t])
            && Safety.VerdictSays(cfg, after, t)
  {
    ReachableOk(cfg, s);
    StepKeeps(cfg, s, step);
    StepEndsDuly(cfg, s, step, t);
    var after := Next(cfg, s, step).db;
    VeiledSynced(cfg, after, t);
    DueSays(cfg, after, t);
  }
}
