/** How a test ended makes no difference to any transaction. A submit in flight when its test ends
    commits into an ended test, and then the verdict need no longer fit the statistics; everything
    else the invariant says still holds. Veil hides the verdicts, so that Inv of the veiled database
    is exactly that rest, and the lemmas here show that no transaction looks behind the veil. */
module Endings {
  import opened Schema
  import opened Outcomes
  import opened Lifecycle
  import opened Queue
  import opened Invariants
  import opened Keeps
  import opened Transitions
  import Sets

  predicate Over(s: TestStatus) { s == Finished || s == Stopped }

  predicate SameButEnding(a: Test, b: Test) {
    a == b || (Over(a.status) && Over(b.status) && b == a.(status := b.status, result := b.result))
  }

  ghost predicate Alike(x: Db, y: Db) {
    && y == x.(tests := y.tests) && y.tests.Keys == x.tests.Keys
    && forall t | t in x.tests :: SameButEnding(x.tests[t], y.tests[t])
  }

  function VeilTest(t: Test): Test {
    if Over(t.status) then t.(status := Stopped, result := NoVerdict) else t
  }

  function Veil(db: Db): Db {
    db.(tests := map t | t in db.tests :: VeilTest(db.tests[t]))
  }

  lemma VeilAlike(db: Db)
    ensures Alike(db, Veil(db))
  {
  }

  lemma AlikeVeils(x: Db, y: Db)
    requires Alike(x, y)
    ensures Veil(x) == Veil(y)
  {
    forall t | t in x.tests ensures VeilTest(x.tests[t]) == VeilTest(y.tests[t]) {
    }
    assert Veil(x).tests == Veil(y).tests;
  }

  // ---------------------------------------------------------------------------
  // The veiled invariant
  // ---------------------------------------------------------------------------

  lemma VeilKeepsShape(db: Db)
    requires Shape(db)
    ensures Shape(Veil(db))
  {
    var after := Veil(db);
    SamePairsTables(db, after);
    forall t | t in after.tests ensures TestOk(after, t) {
      assert TestOk(db, t) && Owned(after, t) == Owned(db, t);
    }
  }

  lemma VeilStats(cfg: Config, db: Db)
    requires GamesOk(db) && StatsOk(cfg, db, {})
    ensures StatsOk(cfg, Veil(db), {})
  {
    var after := Veil(db);
    forall t | t in after.tests ensures Synced(cfg, after, t) {
      SamePairsSameView(cfg, db, after, t);
      SameViewSynced(cfg, db, after, t);
      assert Synced(cfg, db, t);
    }
  }

  lemma VeilRunning(cfg: Config, db: Db)
    requires GamesOk(db) && OneRunning(db) && RunningOk(cfg, db, {})
    ensures OneRunning(Veil(db)) && RunningOk(cfg, Veil(db), {}) && VerdictsOk(cfg, Veil(db))
  {
    var after := Veil(db);
    assert forall t :: HasStatus(after, t, Running) ==> HasStatus(db, t, Running);
    forall t | HasStatus(after, t, Running) ensures KeepsRunning(cfg, after, t) {
      assert KeepsRunning(cfg, db, t);
      SamePairsSameView(cfg, db, after, t);
    }
  }

  lemma VeilKeeps(cfg: Config, db: Db)
    requires Inv(cfg, db)
    ensures Inv(cfg, Veil(db))
  {
    VeilKeepsShape(db);
    VeilStats(cfg, db);
    VeilRunning(cfg, db);
    IdlingFrame(db, Veil(db));
  }

  // ---------------------------------------------------------------------------
  // Transactions do not look behind the veil
  // ---------------------------------------------------------------------------

  lemma AlikeStatus(x: Db, y: Db, s: TestStatus)
    requires Alike(x, y) && !Over(s)
    ensures forall t :: HasStatus(x, t, s) == HasStatus(y, t, s)
    ensures SomeTestIs(x, s) == SomeTestIs(y, s)
  {
    assert forall t :: HasStatus(x, t, s) == HasStatus(y, t, s);
  }

  lemma AlikeNext(x: Db, y: Db, t: int)
    requires Alike(x, y)
    ensures IsNext(x, t) == IsNext(y, t)
  {
    AlikeStatus(x, y, Queued);
    if HasStatus(x, t, Queued) {
      assert forall u | u in x.tests :: Before(x, t, u) == Before(y, t, u);
      assert forall u | u in x.tests :: HasStatus(x, u, Queued) == HasStatus(y, u, Queued);
    }
  }

  lemma SetAlike(x: Db, y: Db, t: int, a: Test, b: Test)
    requires Alike(x, y) && SameButEnding(a, b)
    ensures Alike(x.(tests := x.tests[t := a]), y.(tests := y.tests[t := b]))
  {
  }

  lemma PromoteAlike(x: Db, y: Db)
    requires Alike(x, y)
    ensures Alike(Promote(x), Promote(y))
  {
    AlikeStatus(x, y, Running);
    AlikeStatus(x, y, Queued);
    var t := PromoteEffect(x);
    var u := PromoteEffect(y);
    if !SomeTestIs(x, Running) && SomeTestIs(x, Queued) {
      AlikeNext(x, y, t);
      NextIsUnique(y, t, u);
      SetAlike(x, y, t, x.tests[t].(status := Running), y.tests[t].(status := Running));
    }
  }

  lemma FinishAlike(x: Db, y: Db, t: int, result: TestResult)
    requires Alike(x, y) && t in x.tests
    ensures Alike(Finish(x, t, result), Finish(y, t, result))
  {
    var a, b := x.tests[t].(status := Finished, result := result), y.tests[t].(status := Finished, result := result);
    SetAlike(x, y, t, a, b);
    PromoteAlike(x.(tests := x.tests[t := a]), y.(tests := y.tests[t := b]));
  }

  lemma SettleAlike(cfg: Config, x: Db, y: Db, t: int, st: Stats)
    requires Alike(x, y) && t in x.tests
    ensures Alike(Settle(cfg, x, t, st), Settle(cfg, y, t, st))
  {
    assert forall p :: IsLive(x, p, t) == IsLive(y, p, t);
    match Decide(cfg, x.tests[t].kind, st)
    case AcceptH1 => FinishAlike(x, y, t, Accepted);
    case AcceptH0 => FinishAlike(x, y, t, Rejected);
    case Continue => FinishAlike(x, y, t, if x.tests[t].kind.Sprt? then Inconclusive else AllPlayed);
  }

  /** Both refreshes throw, or both end alike. */
  ghost predicate BothAlike(a: Option<Db>, b: Option<Db>) {
    a.Some? == b.Some? && (a.Some? ==> Alike(a.value, b.value))
  }

  lemma RefreshAlike(cfg: Config, x: Db, y: Db, t: int)
    requires Alike(x, y) && GamesOk(x)
    ensures BothAlike(Refresh(cfg, x, t), Refresh(cfg, y, t))
  {
    if t in x.tests {
      SamePairsSameView(cfg, x, y, t);
      if Recompute(cfg, x, t).Some? {
        var st := Recompute(cfg, x, t).value;
        SettleAlike(cfg, Record(x, t, st), Record(y, t, st), t, st);
      }
    }
  }

  lemma {:induction false} RefreshAllAlike(cfg: Config, x: Db, y: Db, ts: set<int>)
    requires Alike(x, y) && GamesOk(x)
    ensures BothAlike(RefreshAll(cfg, x, ts), RefreshAll(cfg, y, ts))
    decreases |ts|
  {
    if ts != {} {
      var t := Sets.Min(ts);
      RefreshAlike(cfg, x, y, t);
      if Refresh(cfg, x, t).Some? {
        RefreshSamePairs(cfg, x, t);
        RefreshAllAlike(cfg, Refresh(cfg, x, t).value, Refresh(cfg, y, t).value, ts - {t});
      }
    }
  }

  lemma RecoverAlike(cfg: Config, x: Db, y: Db, locked: set<int>)
    requires Alike(x, y) && GamesOk(x)
    ensures Alike(Recover(cfg, x, locked), Recover(cfg, y, locked))
  {
    var midX, midY := RecoverRows(cfg, x, locked), RecoverRows(cfg, y, locked);
    assert midX.pairs == midY.pairs;
    assert TestsWithDiscards(cfg, x, locked) == TestsWithDiscards(cfg, y, locked);
    RefreshAllAlike(cfg, midX, midY, TestsWithDiscards(cfg, x, locked));
  }

  lemma StopAlike(x: Db, y: Db, t: int)
    requires Alike(x, y)
    ensures Alike(Stop(x, t), Stop(y, t))
  {
    if t in x.tests && Stoppable(x.tests[t].status) {
      SetAlike(x, y, t, x.tests[t].(status := Stopped), y.tests[t].(status := Stopped));
      PromoteAlike(SetStatus(x, t, Stopped), SetStatus(y, t, Stopped));
    }
  }

  lemma SmokeAlike(cfg: Config, x: Db, y: Db, t: int, built: bool, orders: seq<real>)
    requires Alike(x, y) && Shape(y)
    ensures Alike(SmokeCommit(cfg, x, t, built, orders), SmokeCommit(cfg, y, t, built, orders))
  {
    if HasStatus(x, t, Validating) {
      if !built || |orders| < x.tests[t].totalPairs {
        SetAlike(x, y, t, x.tests[t].(status := Invalid), y.tests[t].(status := Invalid));
      } else {
        AdmitAlike(cfg, x, y, t, orders);
      }
    }
  }

  lemma AdmitAlike(cfg: Config, x: Db, y: Db, t: int, orders: seq<real>)
    requires Alike(x, y) && Shape(y) && HasStatus(x, t, Validating)
    ensures var a, b := SetStatus(AddPairs(x, t, orders), t, Queued), SetStatus(AddPairs(y, t, orders), t, Queued);
            BothAlike(Refresh(cfg, a, t), Refresh(cfg, b, t))
    ensures var a, b := SetStatus(AddPairs(x, t, orders), t, Queued), SetStatus(AddPairs(y, t, orders), t, Queued);
            Refresh(cfg, a, t).Some? ==> Alike(Promote(Refresh(cfg, a, t).value), Promote(Refresh(cfg, b, t).value))
  {
    var a, b := SetStatus(AddPairs(x, t, orders), t, Queued), SetStatus(AddPairs(y, t, orders), t, Queued);
    assert AddPairs(x, t, orders).pairs == AddPairs(y, t, orders).pairs;
    SetAlike(AddPairs(x, t, orders), AddPairs(y, t, orders), t, a.tests[t], b.tests[t]);
    assert GamesOk(a) by {
      assert b == WithPairs(y, t, orders);
      WithPairsAdded(y, t, orders);
      AddedGamesOk(y, b, t);
    }
    RefreshAlike(cfg, a, b, t);
    if Refresh(cfg, a, t).Some? {
      PromoteAlike(Refresh(cfg, a, t).value, Refresh(cfg, b, t).value);
    }
  }

  lemma AddedGamesOk(db: Db, after: Db, t: int)
    requires PairsAdded(db, after, t) && GamesOk(db)
    ensures GamesOk(after)
  {
  }

  lemma ClaimAlike(cfg: Config, x: Db, y: Db, client: int, slotsFree: int, locked: set<int>, picked: set<int>)
    requires Alike(x, y)
    ensures LegalPick(x, client, slotsFree, locked, picked) == LegalPick(y, client, slotsFree, locked, picked)
    ensures Alike(Claim(cfg, x, client, picked), Claim(cfg, y, client, picked))
  {
    AlikeStatus(x, y, Running);
    forall t ensures client in x.clients ==> IsPick(x, t, client, slotsFree, locked, picked) == IsPick(y, t, client, slotsFree, locked, picked) {
      assert Available(x, t, locked) == Available(y, t, locked);
    }
    forall p | p in x.pairs ensures LeaseRow(cfg, x, client, x.pairs[p]) == LeaseRow(cfg, y, client, y.pairs[p]) {
    }
    assert Claim(cfg, x, client, picked).pairs == Claim(cfg, y, client, picked).pairs;
  }

  lemma InsertTestAlike(x: Db, y: Db, kind: Kind, totalPairs: nat, priority: int, baseMs: nat, incMs: nat)
    requires Alike(x, y)
    ensures Alike(InsertTest(x, kind, totalPairs, priority, baseMs, incMs), InsertTest(y, kind, totalPairs, priority, baseMs, incMs))
  {
  }

  lemma SetPriorityAlike(x: Db, y: Db, t: int, rank: int)
    requires Alike(x, y)
    ensures Alike(SetPriority(x, t, rank), SetPriority(y, t, rank))
  {
    if HasStatus(x, t, Validating) || HasStatus(x, t, Queued) {
      SetAlike(x, y, t, x.tests[t].(priority := rank), y.tests[t].(priority := rank));
    }
  }

  lemma RegisterAlike(x: Db, y: Db, name: string, slots: nat)
    requires Alike(x, y)
    ensures Alike(Register(x, name, slots), Register(y, name, slots))
  {
  }

  lemma AbandonAlike(x: Db, y: Db, p: int, client: int)
    requires Alike(x, y)
    ensures Alike(Abandon(x, p, client), Abandon(y, p, client))
  {
  }

  lemma ClientAlike(x: Db, y: Db, c: int, factor: Option<real>)
    requires Alike(x, y)
    ensures Alike(Heartbeat(x, c, factor), Heartbeat(y, c, factor))
    ensures Alike(Ban(x, c), Ban(y, c))
  {
  }

  /** Any transaction but a submit. */
  lemma ApplyAlike(cfg: Config, x: Db, y: Db, a: Action)
    requires Alike(x, y) && Shape(y) && Enabled(x, a) && !a.DoSubmit?
    ensures Enabled(y, a) && Alike(Apply(cfg, x, a), Apply(cfg, y, a))
  {
    match a
    case DoInsertTest(kind, totalPairs, rank, baseMs, incMs) => InsertTestAlike(x, y, kind, totalPairs, rank, baseMs, incMs);
    case DoSetPriority(t, rank) => SetPriorityAlike(x, y, t, rank);
    case DoStop(t) => StopAlike(x, y, t);
    case DoSmokeCommit(t, built, orders) => SmokeAlike(cfg, x, y, t, built, orders);
    case DoClaim(client, slotsFree, locked, picked) => ClaimAlike(cfg, x, y, client, slotsFree, locked, picked);
    case DoRecover(locked) => RecoverAlike(cfg, x, y, locked);
    case DoPromote => PromoteAlike(x, y);
    case DoRegister(name, slots) => RegisterAlike(x, y, name, slots);
    case DoHeartbeat(c, factor) => ClientAlike(x, y, c, factor);
    case DoBan(c) => ClientAlike(x, y, c, None);
    case DoAbandon(p, client) => AbandonAlike(x, y, p, client);
    case DoTick(dt) =>
  }
}
