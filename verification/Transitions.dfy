/** What one transaction may do to a test that has ended, and to a pair. */
module Transitions {
  import opened Schema
  import opened Outcomes
  import opened Lifecycle
  import opened Queue
  import opened Invariants
  import opened Keeps
  import Sets

  predicate Terminal(s: TestStatus) { s == Finished || s == Stopped || s == Invalid }

  // ---------------------------------------------------------------------------
  // Tests that have ended are frozen
  // ---------------------------------------------------------------------------

  /** Test t, its statistics, its history and its pairs' identities are as before. */
  ghost predicate Frozen(db: Db, after: Db, t: int) {
    && t in db.tests && t in after.tests && after.tests[t] == db.tests[t]
    && (t in db.stats <==> t in after.stats) && (t in db.stats ==> after.stats[t] == db.stats[t])
    && (t in db.history <==> t in after.history) && (t in db.history ==> after.history[t] == db.history[t])
    && Owned(after, t) == Owned(db, t)
  }

  /** Recording the statistics a test already has changes nothing. */
  lemma RecordAgain(cfg: Config, db: Db, t: int, st: Stats)
    requires t in db.tests && Synced(cfg, db, t) && Owned(db, t) != {} && Recompute(cfg, db, t) == Some(st)
    ensures Record(db, t, st) == db
  {
    assert st.penta == PentaOf(db, t);
    assert db.stats[t := st] == db.stats;
    assert db.history[t := db.history[t]] == db.history;
  }

  lemma RefreshFrozen(cfg: Config, db: Db, u: int, t: int)
    requires u in db.tests && t in db.tests && Terminal(db.tests[t].status)
    requires u == t ==> Synced(cfg, db, t) && Owned(db, t) != {}
    requires Refresh(cfg, db, u).Some?
    ensures Frozen(db, Refresh(cfg, db, u).value, t)
    ensures Refresh(cfg, db, u).value.pairs == db.pairs && Refresh(cfg, db, u).value.games == db.games
  {
    var after := Refresh(cfg, db, u).value;
    var st := Recompute(cfg, db, u).value;
    RefreshSteps(cfg, db, u);
    assert StatusStep(db.tests[t], after.tests[t]);
    assert Owned(after, t) == Owned(db, t);
    if u == t {
      RecordAgain(cfg, db, t, st);
    }
  }

  lemma {:induction false} RefreshAllFrozen(cfg: Config, db: Db, ts: set<int>, t: int)
    requires forall u | u in ts :: u in db.tests
    requires t in db.tests && Terminal(db.tests[t].status) && GamesOk(db)
    requires t in ts ==> Synced(cfg, db, t) && Owned(db, t) != {}
    requires RefreshAll(cfg, db, ts).Some?
    ensures Frozen(db, RefreshAll(cfg, db, ts).value, t)
    ensures RefreshAll(cfg, db, ts).value.pairs == db.pairs && RefreshAll(cfg, db, ts).value.games == db.games
    decreases |ts|
  {
    if ts != {} {
      var u := Sets.Min(ts);
      var mid := Refresh(cfg, db, u).value;
      RefreshFrozen(cfg, db, u, t);
      RefreshSteps(cfg, db, u);
      SamePairsSameView(cfg, db, mid, t);
      SameViewSynced(cfg, db, mid, t);
      RefreshAllFrozen(cfg, mid, ts - {u}, t);
    }
  }

  lemma RowsFrozen(cfg: Config, db: Db, mid: Db, t: int)
    requires Inv(cfg, db) && PairsChange(db, mid) && t in db.tests
    ensures Frozen(db, mid, t) && Synced(cfg, mid, t) && GamesOk(mid)
  {
    PairsChangeShape(db, mid);
    PairsChangeView(cfg, db, mid, t);
    assert Synced(cfg, db, t);
  }

  lemma RecoverFrozen(cfg: Config, db: Db, locked: set<int>, t: int)
    requires Inv(cfg, db) && t in db.tests && Terminal(db.tests[t].status)
    ensures Frozen(db, Recover(cfg, db, locked), t)
  {
    var ts, mid := TestsWithDiscards(cfg, db, locked), RecoverRows(cfg, db, locked);
    if RefreshAll(cfg, mid, ts).Some? {
      RecoverRowsChange(cfg, db, locked);
      RowsFrozen(cfg, db, mid, t);
      forall u | u in ts ensures u in mid.tests && Owned(db, u) != {} {
        DiscardingTest(cfg, db, locked, u);
      }
      RefreshAllFrozen(cfg, mid, ts, t);
    } else {
      SamePairsFrozen(db, db, t);
    }
  }

  lemma SubmitFrozen(cfg: Config, db: Db, p: int, report: PairReport, t: int)
    requires Inv(cfg, db) && report.Valid() && t in db.tests && Terminal(db.tests[t].status)
    ensures Frozen(db, Submit(cfg, db, p, report).0, t)
  {
    if SubmitGuard(db, p, report.client) == AcceptedResult {
      var mid, u := Insert(db, p, report), db.pairs[p].test;
      InsertOwned(db, p, report, t);
      if Refresh(cfg, mid, u).Some? {
        RefreshFrozen(cfg, mid, u, t);
      }
    }
  }

  lemma AdmitFrozen(cfg: Config, db: Db, queued: Db, u: int, t: int)
    requires PairsAdded(db, queued, u) && u != t
    requires t in db.tests && Terminal(db.tests[t].status) && Refresh(cfg, queued, u).Some?
    ensures Frozen(db, Promote(Refresh(cfg, queued, u).value), t)
  {
    var after := Refresh(cfg, queued, u).value;
    AddedOwned(db, queued, u, t);
    RefreshFrozen(cfg, queued, u, t);
    PromoteSteps(after);
    SamePairsFrozen(after, Promote(after), t);
  }

  lemma SmokeCommitFrozen(cfg: Config, db: Db, u: int, built: bool, orders: seq<real>, t: int)
    requires Shape(db) && t in db.tests && Terminal(db.tests[t].status)
    ensures Frozen(db, SmokeCommit(cfg, db, u, built, orders), t)
  {
    if !HasStatus(db, u, Validating) {
      SamePairsFrozen(db, db, t);
    } else if !built || |orders| < db.tests[u].totalPairs {
      SamePairsFrozen(db, SetStatus(db, u, Invalid), t);
    } else {
      WithPairsAdded(db, u, orders);
      if Refresh(cfg, WithPairs(db, u, orders), u).Some? {
        AdmitFrozen(cfg, db, WithPairs(db, u, orders), u, t);
      } else {
        SamePairsFrozen(db, db, t);
      }
    }
  }

  lemma PairsChangeFrozen(db: Db, after: Db, t: int)
    requires PairsChange(db, after) && t in db.tests
    ensures Frozen(db, after, t)
  {
    PairsChangeOwned(db, after, t);
  }

  lemma SamePairsFrozen(db: Db, after: Db, t: int)
    requires after.pairs == db.pairs && after.stats == db.stats && after.history == db.history
    requires t in db.tests && t in after.tests && after.tests[t] == db.tests[t]
    ensures Frozen(db, after, t)
  {
    assert Owned(after, t) == Owned(db, t);
  }

  lemma StopFrozen(db: Db, u: int, t: int)
    requires t in db.tests && Terminal(db.tests[t].status)
    ensures Frozen(db, Stop(db, u), t)
  {
    if u in db.tests && Stoppable(db.tests[u].status) {
      PromoteSteps(SetStatus(db, u, Stopped));
      SamePairsFrozen(db, Stop(db, u), t);
    } else {
      SamePairsFrozen(db, Stop(db, u), t);
    }
  }

  predicate TouchesPairs(a: Action) { a.DoClaim? || a.DoSubmit? || a.DoAbandon? || a.DoRecover? }

  /** Clients and the clock do not touch a test. */
  lemma PeopleFrozen(cfg: Config, db: Db, a: Action, t: int)
    requires Enabled(db, a) && (a.DoTick? || a.DoRegister? || a.DoHeartbeat? || a.DoBan?) && t in db.tests
    ensures Frozen(db, Apply(cfg, db, a), t)
  {
    var after := Apply(cfg, db, a);
    SamePairsFrozen(db, after, t);
  }

  lemma InsertTestFrozen(db: Db, kind: Kind, totalPairs: nat, rank: int, baseMs: nat, incMs: nat, t: int)
    requires Shape(db) && t in db.tests
    ensures Frozen(db, InsertTest(db, kind, totalPairs, rank, baseMs, incMs), t)
  {
    NoPairsYet(db);
    SamePairsFrozen(db, InsertTest(db, kind, totalPairs, rank, baseMs, incMs), t);
  }

  lemma QuietlyFrozen(cfg: Config, db: Db, a: Action, t: int)
    requires Shape(db) && Enabled(db, a) && !TouchesPairs(a)
    requires t in db.tests && Terminal(db.tests[t].status)
    ensures Frozen(db, Apply(cfg, db, a), t)
  {
    match a
    case DoInsertTest(kind, totalPairs, rank, baseMs, incMs) =>
      InsertTestFrozen(db, kind, totalPairs, rank, baseMs, incMs, t);
    case DoSetPriority(u, rank) => SamePairsFrozen(db, SetPriority(db, u, rank), t);
    case DoStop(u) => StopFrozen(db, u, t);
    case DoSmokeCommit(u, built, orders) => SmokeCommitFrozen(cfg, db, u, built, orders, t);
    case DoPromote =>
      PromoteSteps(db);
      SamePairsFrozen(db, Promote(db), t);
    case _ => PeopleFrozen(cfg, db, a, t);
  }

  /** Finished, stopped and invalid are never left, and such a test's result, statistics, history
      and set of pairs never change again. */
  lemma EndedTestsAreFrozen(cfg: Config, db: Db, a: Action, t: int)
    requires Inv(cfg, db) && Enabled(db, a)
    requires t in db.tests && Terminal(db.tests[t].status)
    ensures Frozen(db, Apply(cfg, db, a), t)
  {
    if a.DoClaim? {
      ClaimChange(cfg, db, a.client, a.slotsFree, a.locked, a.picked);
      PairsChangeFrozen(db, Claim(cfg, db, a.client, a.picked), t);
    } else if a.DoSubmit? {
      SubmitFrozen(cfg, db, a.pair, a.report, t);
    } else if a.DoAbandon? {
      AbandonChange(db, a.pair, a.client);
      PairsChangeFrozen(db, Abandon(db, a.pair, a.client), t);
    } else if a.DoRecover? {
      RecoverFrozen(cfg, db, a.locked, t);
    } else {
      QuietlyFrozen(cfg, db, a, t);
    }
  }

  // ---------------------------------------------------------------------------
  // Pairs
  // ---------------------------------------------------------------------------

  lemma RefreshSamePairs(cfg: Config, db: Db, t: int)
    requires Refresh(cfg, db, t).Some?
    ensures Refresh(cfg, db, t).value.pairs == db.pairs && Refresh(cfg, db, t).value.games == db.games
  {
    if t in db.tests {
      RefreshSteps(cfg, db, t);
    }
  }

  lemma {:induction false} RefreshAllSamePairs(cfg: Config, db: Db, ts: set<int>)
    requires RefreshAll(cfg, db, ts).Some?
    ensures RefreshAll(cfg, db, ts).value.pairs == db.pairs && RefreshAll(cfg, db, ts).value.games == db.games
    decreases |ts|
  {
    if ts != {} {
      var t := Sets.Min(ts);
      RefreshSamePairs(cfg, db, t);
      RefreshAllSamePairs(cfg, Refresh(cfg, db, t).value, ts - {t});
    }
  }

  predicate Accepts(a: Action, p: int) { a.DoSubmit? && a.pair == p }

  ghost predicate IsAccepted(cfg: Config, db: Db, a: Action, p: int)
    requires Enabled(db, a)
  {
    Accepts(a, p) && Submit(cfg, db, p, a.report).1 == AcceptedResult
  }

  ghost predicate GamesSame(db: Db, after: Db, p: int) {
    Row(after, p, 0) == Row(db, p, 0) && Row(after, p, 1) == Row(db, p, 1)
  }

  /** The lease state machine: everything a transaction that takes db to after may do to pair p. */
  ghost predicate PairMove(cfg: Config, db: Db, a: Action, after: Db, p: int)
    requires Enabled(db, a) && p in db.pairs
  {
    p in after.pairs
    && var x, y := db.pairs[p], after.pairs[p];
       if IsAccepted(cfg, db, a, p) then
         && x.status == Leased && Holds(x, a.report.client) && y == x.(status := Completed)
         && Row(after, p, 0) == Some(GameRow(x.test, a.report, 0))
         && Row(after, p, 1) == Some(GameRow(x.test, a.report, 1))
       else
         && GamesSame(db, after, p)
         && (|| y == x
             || (a.DoClaim? && p in a.picked && x.status == Pending && y.status == Leased && y == LeaseRow(cfg, db, a.client, x))
             || (a.DoAbandon? && a.pair == p && CanAbandon(db, p, a.client) && y == Requeue(x))
             || (a.DoRecover? && IsExpired(db, p, a.locked) && y == RecoverRow(cfg, x)))
  }

  lemma StillMove(cfg: Config, db: Db, a: Action, after: Db, p: int)
    requires Enabled(db, a) && p in db.pairs && !a.DoSubmit?
    requires p in after.pairs && after.pairs[p] == db.pairs[p] && GamesSame(db, after, p)
    ensures PairMove(cfg, db, a, after, p)
  {
  }

  lemma SubmitMove(cfg: Config, db: Db, q: int, report: PairReport, p: int)
    requires report.Valid() && p in db.pairs
    ensures PairMove(cfg, db, DoSubmit(q, report), Submit(cfg, db, q, report).0, p)
  {
    if SubmitGuard(db, q, report.client) == AcceptedResult {
      var mid := Insert(db, q, report);
      if Refresh(cfg, mid, db.pairs[q].test).Some? {
        RefreshSamePairs(cfg, mid, db.pairs[q].test);
      }
    }
  }

  lemma SmokeSameRow(cfg: Config, db: Db, t: int, built: bool, orders: seq<real>, p: int)
    requires Shape(db) && p in db.pairs
    ensures var after := SmokeCommit(cfg, db, t, built, orders);
            p in after.pairs && after.pairs[p] == db.pairs[p] && after.games == db.games
  {
    if HasStatus(db, t, Validating) && built && |orders| >= db.tests[t].totalPairs {
      var queued := WithPairs(db, t, orders);
      WithPairsAdded(db, t, orders);
      if Refresh(cfg, queued, t).Some? {
        RefreshSamePairs(cfg, queued, t);
        PromoteSteps(Refresh(cfg, queued, t).value);
      }
    }
  }

  lemma RecoverMove(cfg: Config, db: Db, locked: set<int>, p: int)
    requires p in db.pairs
    ensures PairMove(cfg, db, DoRecover(locked), Recover(cfg, db, locked), p)
  {
    var ts, mid := TestsWithDiscards(cfg, db, locked), RecoverRows(cfg, db, locked);
    if RefreshAll(cfg, mid, ts).Some? {
      RefreshAllSamePairs(cfg, mid, ts);
    }
  }

  lemma ClaimMove(cfg: Config, db: Db, client: int, slotsFree: int, locked: set<int>, picked: set<int>, p: int)
    requires Shape(db) && p in db.pairs && LegalPick(db, client, slotsFree, locked, picked)
    ensures PairMove(cfg, db, DoClaim(client, slotsFree, locked, picked), Claim(cfg, db, client, picked), p)
  {
    if p in picked {
      PickedRows(db, client, slotsFree, locked, picked, p);
    }
  }

  lemma StopSameRows(db: Db, u: int)
    ensures Stop(db, u).pairs == db.pairs && Stop(db, u).games == db.games
  {
    if u in db.tests && Stoppable(db.tests[u].status) {
      PromoteSteps(SetStatus(db, u, Stopped));
    }
  }

  /** Only smoke commits, stops and promotions among the quiet transactions need a word. */
  lemma OtherStillRow(cfg: Config, db: Db, a: Action, p: int)
    requires Enabled(db, a) && p in db.pairs && !TouchesPairs(a) && !a.DoSmokeCommit? && !a.DoStop? && !a.DoPromote?
    ensures Apply(cfg, db, a).pairs == db.pairs && Apply(cfg, db, a).games == db.games
  {
  }

  lemma StillRow(cfg: Config, db: Db, a: Action, p: int)
    requires Shape(db) && Enabled(db, a) && p in db.pairs && !TouchesPairs(a)
    ensures var after := Apply(cfg, db, a);
            p in after.pairs && after.pairs[p] == db.pairs[p] && after.games == db.games
  {
    if a.DoSmokeCommit? {
      SmokeSameRow(cfg, db, a.test, a.built, a.orders, p);
    } else if a.DoStop? {
      StopSameRows(db, a.test);
    } else if a.DoPromote? {
      PromoteSteps(db);
    } else {
      OtherStillRow(cfg, db, a, p);
    }
  }

  lemma ApplyMove(cfg: Config, db: Db, a: Action, p: int)
    requires Shape(db) && Enabled(db, a) && p in db.pairs
    ensures PairMove(cfg, db, a, Apply(cfg, db, a), p)
  {
    if a.DoClaim? {
      ClaimMove(cfg, db, a.client, a.slotsFree, a.locked, a.picked, p);
    } else if a.DoSubmit? {
      SubmitMove(cfg, db, a.pair, a.report, p);
    } else if a.DoAbandon? {
      AbandonMove(cfg, db, a.pair, a.client, p);
    } else if a.DoRecover? {
      RecoverMove(cfg, db, a.locked, p);
    } else {
      StillRow(cfg, db, a, p);
      StillMove(cfg, db, a, Apply(cfg, db, a), p);
    }
  }

  lemma AbandonMove(cfg: Config, db: Db, q: int, client: int, p: int)
    requires p in db.pairs
    ensures PairMove(cfg, db, DoAbandon(q, client), Abandon(db, q, client), p)
  {
  }
}
