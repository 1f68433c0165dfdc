/** How much work a test can cause: every lease, accepted result and recovery spends from a budget
    fixed when the test is admitted, and only abandons add to it. */
module Leases {
  import opened Schema
  import opened Lifecycle
  import opened Queue
  import opened Invariants
  import opened Keeps
  import opened Runs
  import opened Transitions
  import opened ExactlyOnce
  import Sets

  /** Leases pair row may still be given without an abandon; a pending pair may always be given one. */
  function Credit(cfg: Config, row: Pair): nat {
    var left := if cfg.maxAttempts > row.attempts then cfg.maxAttempts - row.attempts else 0;
    match row.status
    case Pending => if left == 0 then 1 else left
    case Leased => left
    case _ => 0
  }

  /** The same for all moves of a pair: each lease granted and each lease ended. */
  function Weight(cfg: Config, row: Pair): nat {
    2 * Credit(cfg, row) + if row.status == Leased then 1 else 0
  }

  ghost function PotentialOf(cfg: Config, db: Db, all: bool, p: int): int {
    if p !in db.pairs then 0 else if all then Weight(cfg, db.pairs[p]) else Credit(cfg, db.pairs[p])
  }

  ghost function Potential(cfg: Config, db: Db, t: int, all: bool): int {
    Sets.Sum(Owned(db, t), p => PotentialOf(cfg, db, all, p))
  }

  /** What test t may still spend; a test without pairs has its whole budget. */
  ghost function Budget(cfg: Config, db: Db, t: int, all: bool): int
    requires t in db.tests
  {
    if Owned(db, t) == {} then (if all then 2 else 1) * db.tests[t].totalPairs * cfg.maxAttempts
    else Potential(cfg, db, t, all)
  }

  /** The pairs of test t that action a moves: leases, accepted results and recoveries. */
  ghost function Moved(cfg: Config, db: Db, a: Action, t: int): set<int>
    requires Enabled(db, a)
  {
    set p | p in Owned(db, t) && p in Apply(cfg, db, a).pairs && Apply(cfg, db, a).pairs[p] != db.pairs[p] && !a.DoAbandon?
  }

  /** The pairs of test t whose lease action a gives back. */
  ghost function GivenBack(cfg: Config, db: Db, a: Action, t: int): set<int>
    requires Enabled(db, a)
  {
    set p | p in Owned(db, t) && a.DoAbandon? && a.pair == p && CanAbandon(db, p, a.client)
  }

  ghost function Spent(cfg: Config, db: Db, a: Action, t: int, all: bool): set<int>
    requires Enabled(db, a)
  {
    if all || a.DoClaim? then Moved(cfg, db, a, t) else {}
  }

  ghost function TotalSpent(cfg: Config, db: Db, run: seq<Action>, t: int, all: bool): nat
    requires Legal(cfg, db, run)
    decreases |run|
  {
    if run == [] then 0
    else |Spent(cfg, db, run[0], t, all)| + TotalSpent(cfg, Apply(cfg, db, run[0]), run[1..], t, all)
  }

  ghost function TotalGivenBack(cfg: Config, db: Db, run: seq<Action>, t: int): nat
    requires Legal(cfg, db, run)
    decreases |run|
  {
    if run == [] then 0
    else |GivenBack(cfg, db, run[0], t)| + TotalGivenBack(cfg, Apply(cfg, db, run[0]), run[1..], t)
  }

  /** One pair pays for its own moves. */
  lemma PairPays(cfg: Config, db: Db, a: Action, t: int, all: bool, p: int)
    requires Shape(db) && Enabled(db, a) && p in Owned(db, t)
    ensures PotentialOf(cfg, Apply(cfg, db, a), all, p) + (if p in Spent(cfg, db, a, t, all) then 1 else 0)
         <= PotentialOf(cfg, db, all, p) + (if p in GivenBack(cfg, db, a, t) then 1 else 0)
  {
    ApplyMove(cfg, db, a, p);
  }

  lemma TestPays(cfg: Config, db: Db, a: Action, t: int, all: bool)
    requires Shape(db) && Enabled(db, a) && Owned(Apply(cfg, db, a), t) == Owned(db, t)
    ensures Potential(cfg, Apply(cfg, db, a), t, all) + |Spent(cfg, db, a, t, all)|
         <= Potential(cfg, db, t, all) + |GivenBack(cfg, db, a, t)|
  {
    var after := Apply(cfg, db, a);
    var s := Owned(db, t);
    forall p | p in s
      ensures PotentialOf(cfg, after, all, p) + (if p in Spent(cfg, db, a, t, all) then 1 else 0)
           <= PotentialOf(cfg, db, all, p) + (if p in GivenBack(cfg, db, a, t) then 1 else 0)
    {
      PairPays(cfg, db, a, t, all, p);
    }
    Sets.SumStep(s, Spent(cfg, db, a, t, all), GivenBack(cfg, db, a, t),
                 p => PotentialOf(cfg, db, all, p), p => PotentialOf(cfg, after, all, p));
  }

  // ---------------------------------------------------------------------------
  // Admission: a test gets all its pairs at once, fresh
  // ---------------------------------------------------------------------------

  lemma NewPairsFresh(db: Db, t: int, orders: seq<real>)
    requires PairsOk(db) && t in db.tests && Owned(db, t) == {}
    ensures forall p | p in Owned(WithPairs(db, t, orders), t) :: Fresh(WithPairs(db, t, orders).pairs[p])
  {
    assert forall p | p in db.pairs :: db.pairs[p].test == t ==> p in Owned(db, t);
  }

  /** Test t got all its pairs, fresh. */
  ghost predicate Admitted(db: Db, after: Db, t: int)
    requires t in db.tests
  {
    && Owned(db, t) == {} && |Owned(after, t)| == db.tests[t].totalPairs
    && forall p | p in Owned(after, t) :: Fresh(after.pairs[p])
  }

  lemma SmokeOwned(cfg: Config, db: Db, u: int, built: bool, orders: seq<real>, t: int)
    requires Shape(db) && t in db.tests && (u in db.tests ==> |orders| <= db.tests[u].totalPairs)
    ensures var after := SmokeCommit(cfg, db, u, built, orders);
            Owned(after, t) == Owned(db, t) || Admitted(db, after, t)
  {
    var after := SmokeCommit(cfg, db, u, built, orders);
    SmokePairs(cfg, db, u, built, orders);
    if after.pairs != db.pairs {
      WithPairsAdded(db, u, orders);
      assert Owned(after, t) == Owned(WithPairs(db, u, orders), t);
      assert TestOk(db, u);
      if u == t {
        NewPairsOwned(db, t, orders);
        NewPairsFresh(db, t, orders);
      } else {
        AddedOwned(db, WithPairs(db, u, orders), u, t);
      }
    } else {
      assert Owned(after, t) == Owned(db, t);
    }
  }

  lemma OwnedStep(cfg: Config, db: Db, a: Action, t: int)
    requires Shape(db) && Enabled(db, a) && t in db.tests
    ensures Owned(Apply(cfg, db, a), t) == Owned(db, t) || Admitted(db, Apply(cfg, db, a), t)
  {
    if a.DoSmokeCommit? {
      SmokeOwned(cfg, db, a.test, a.built, a.orders, t);
    } else {
      var after := Apply(cfg, db, a);
      SameKeys(cfg, db, a);
      forall p | p in db.pairs ensures after.pairs[p].test == db.pairs[p].test {
        ApplyMove(cfg, db, a, p);
      }
      assert forall p :: p in Owned(after, t) <==> p in Owned(db, t);
    }
  }

  /** No test appears, disappears or changes its size. */
  ghost predicate SizesKept(db: Db, after: Db) {
    && after.tests.Keys == db.tests.Keys
    && forall t | t in db.tests :: after.tests[t].totalPairs == db.tests[t].totalPairs
  }

  lemma RefreshSizes(cfg: Config, db: Db, u: int)
    requires Refresh(cfg, db, u).Some?
    ensures SizesKept(db, Refresh(cfg, db, u).value)
  {
    if u in db.tests {
      RefreshSteps(cfg, db, u);
    }
  }

  lemma {:induction false} RefreshAllSizes(cfg: Config, db: Db, ts: set<int>)
    requires RefreshAll(cfg, db, ts).Some?
    ensures SizesKept(db, RefreshAll(cfg, db, ts).value)
    decreases |ts|
  {
    if ts != {} {
      var u := Sets.Min(ts);
      RefreshSizes(cfg, db, u);
      RefreshAllSizes(cfg, Refresh(cfg, db, u).value, ts - {u});
    }
  }

  lemma SmokeSizes(cfg: Config, db: Db, u: int, built: bool, orders: seq<real>)
    ensures SizesKept(db, SmokeCommit(cfg, db, u, built, orders))
  {
    if HasStatus(db, u, Validating) && built && |orders| >= db.tests[u].totalPairs {
      var queued := WithPairs(db, u, orders);
      assert SizesKept(db, queued);
      if Refresh(cfg, queued, u).Some? {
        var after := Refresh(cfg, queued, u).value;
        RefreshSizes(cfg, queued, u);
        PromoteSizes(after);
        SizesThen(db, queued, after);
        SizesThen(db, after, Promote(after));
      }
    }
  }

  lemma PromoteSizes(db: Db)
    ensures SizesKept(db, Promote(db))
  {
    PromoteSteps(db);
  }

  lemma SizesThen(db: Db, mid: Db, after: Db)
    requires SizesKept(db, mid) && SizesKept(mid, after)
    ensures SizesKept(db, after)
  {
  }

  lemma SubmitSizes(cfg: Config, db: Db, p: int, report: PairReport)
    requires report.Valid()
    ensures SizesKept(db, Submit(cfg, db, p, report).0)
  {
    if SubmitGuard(db, p, report.client) == AcceptedResult {
      if Refresh(cfg, Insert(db, p, report), db.pairs[p].test).Some? {
        RefreshSizes(cfg, Insert(db, p, report), db.pairs[p].test);
      }
    }
  }

  lemma RecoverSizes(cfg: Config, db: Db, locked: set<int>)
    ensures SizesKept(db, Recover(cfg, db, locked))
  {
    var ts, mid := TestsWithDiscards(cfg, db, locked), RecoverRows(cfg, db, locked);
    if RefreshAll(cfg, mid, ts).Some? {
      RefreshAllSizes(cfg, mid, ts);
    }
  }

  lemma StopSizes(db: Db, u: int)
    ensures SizesKept(db, Stop(db, u))
  {
    if u in db.tests {
      PromoteSteps(SetStatus(db, u, Stopped));
    }
  }

  lemma ApplySizes(cfg: Config, db: Db, a: Action)
    requires Enabled(db, a) && !a.DoInsertTest?
    ensures SizesKept(db, Apply(cfg, db, a))
  {
    match a
    case DoSmokeCommit(u, built, orders) => SmokeSizes(cfg, db, u, built, orders);
    case DoSubmit(p, report) => SubmitSizes(cfg, db, p, report);
    case DoRecover(locked) => RecoverSizes(cfg, db, locked);
    case DoStop(u) => StopSizes(db, u);
    case DoPromote => PromoteSteps(db);
    case _ =>
  }

  lemma SizeStep(cfg: Config, db: Db, a: Action, t: int)
    requires Shape(db) && Enabled(db, a) && t in db.tests
    ensures t in Apply(cfg, db, a).tests && Apply(cfg, db, a).tests[t].totalPairs == db.tests[t].totalPairs
  {
    if a.DoInsertTest? {
      NoPairsYet(db);
    } else {
      ApplySizes(cfg, db, a);
    }
  }

  lemma FreshBudget(cfg: Config, db: Db, t: int, all: bool)
    requires cfg.maxAttempts >= 1 && forall p | p in Owned(db, t) :: Fresh(db.pairs[p])
    ensures Potential(cfg, db, t, all) == (if all then 2 else 1) * |Owned(db, t)| * cfg.maxAttempts
  {
    var each := (if all then 2 else 1) * cfg.maxAttempts;
    Sets.SumConst(Owned(db, t), p => PotentialOf(cfg, db, all, p), each);
    assert |Owned(db, t)| * each == (if all then 2 else 1) * |Owned(db, t)| * cfg.maxAttempts;
  }

  lemma BudgetStep(cfg: Config, db: Db, a: Action, t: int, all: bool)
    requires Inv(cfg, db) && Enabled(db, a) && t in db.tests && cfg.maxAttempts >= 1
    ensures t in Apply(cfg, db, a).tests
    ensures Budget(cfg, Apply(cfg, db, a), t, all) + |Spent(cfg, db, a, t, all)|
         <= Budget(cfg, db, t, all) + |GivenBack(cfg, db, a, t)|
  {
    SizeStep(cfg, db, a, t);
    OwnedStep(cfg, db, a, t);
    if Owned(db, t) == {} {
      assert Spent(cfg, db, a, t, all) == {};
      if Owned(Apply(cfg, db, a), t) != {} {
        FreshBudget(cfg, Apply(cfg, db, a), t, all);
      }
    } else {
      TestPays(cfg, db, a, t, all);
    }
  }

  lemma {:induction false} BudgetRun(cfg: Config, db: Db, run: seq<Action>, t: int, all: bool)
    requires Inv(cfg, db) && Legal(cfg, db, run) && t in db.tests && cfg.maxAttempts >= 1
    ensures var end := After(cfg, db, run);
            && t in end.tests && end.tests[t].totalPairs == db.tests[t].totalPairs
            && Budget(cfg, end, t, all) + TotalSpent(cfg, db, run, t, all)
               <= Budget(cfg, db, t, all) + TotalGivenBack(cfg, db, run, t)
    decreases |run|
  {
    if run != [] {
      BudgetStep(cfg, db, run[0], t, all);
      SizeStep(cfg, db, run[0], t);
      ApplyKeeps(cfg, db, run[0]);
      BudgetRun(cfg, Apply(cfg, db, run[0]), run[1..], t, all);
    }
  }

  /** Before a test exists nothing is spent on it. */
  lemma {:induction false} BudgetFromBirth(cfg: Config, db: Db, run: seq<Action>, t: int, all: bool)
    requires Inv(cfg, db) && Legal(cfg, db, run) && t !in db.tests && cfg.maxAttempts >= 1
    ensures var end := After(cfg, db, run);
            if t in end.tests then
              Budget(cfg, end, t, all) + TotalSpent(cfg, db, run, t, all)
              <= (if all then 2 else 1) * end.tests[t].totalPairs * cfg.maxAttempts + TotalGivenBack(cfg, db, run, t)
            else TotalSpent(cfg, db, run, t, all) == 0
    decreases |run|
  {
    if run != [] {
      var next := Apply(cfg, db, run[0]);
      ApplyKeeps(cfg, db, run[0]);
      NoPairsOf(db, t);
      assert Spent(cfg, db, run[0], t, all) == {} && GivenBack(cfg, db, run[0], t) == {};
      if t in next.tests {
        BornEmpty(cfg, db, run[0], t);
        BudgetRun(cfg, next, run[1..], t, all);
      } else {
        BudgetFromBirth(cfg, next, run[1..], t, all);
      }
    }
  }

  lemma NoPairsOf(db: Db, t: int)
    requires PairsOk(db) && t !in db.tests
    ensures Owned(db, t) == {}
  {
    assert forall p | p in db.pairs :: RowOk(db, db.pairs[p]);
  }

  lemma BornEmpty(cfg: Config, db: Db, a: Action, t: int)
    requires PairsOk(db) && Enabled(db, a) && t !in db.tests && t in Apply(cfg, db, a).tests
    ensures Owned(Apply(cfg, db, a), t) == {}
  {
    if a.DoInsertTest? {
      NoPairsOf(db, t);
      assert Owned(Apply(cfg, db, a), t) == Owned(db, t);
    } else {
      assert t in Apply(cfg, db, a).tests.Keys;
      ApplySizes(cfg, db, a);
    }
  }

  // ---------------------------------------------------------------------------
  // Theorems
  // ---------------------------------------------------------------------------

  lemma PotentialAtLeast(cfg: Config, db: Db, t: int, all: bool, p: int)
    requires p in Owned(db, t)
    ensures Potential(cfg, db, t, all) >= PotentialOf(cfg, db, all, p) >= 0
  {
    Sets.SumMember(Owned(db, t), q => PotentialOf(cfg, db, all, q), p);
  }

  lemma BudgetNonnegative(cfg: Config, db: Db, t: int, all: bool)
    requires t in db.tests
    ensures Budget(cfg, db, t, all) >= 0
  {
    if Owned(db, t) != {} {
      PotentialAtLeast(cfg, db, t, all, Sets.Pick(Owned(db, t)));
    }
  }

  /** In any run, a test is granted at most total_pairs * max_attempts leases, plus one for each
      lease a client gave back. */
  lemma LeasesAreBounded(cfg: Config, run: seq<Action>, t: int)
    requires cfg.maxAttempts >= 1 && Legal(cfg, EMPTY_DB, run) && t in After(cfg, EMPTY_DB, run).tests
    ensures TotalSpent(cfg, EMPTY_DB, run, t, false)
         <= After(cfg, EMPTY_DB, run).tests[t].totalPairs * cfg.maxAttempts + TotalGivenBack(cfg, EMPTY_DB, run, t)
  {
    EmptyInv(cfg);
    BudgetFromBirth(cfg, EMPTY_DB, run, t, false);
    BudgetNonnegative(cfg, After(cfg, EMPTY_DB, run), t, false);
  }

  /** Leases granted, results accepted and leases recovered together spend at most twice that; a
      test that has spent it all no longer runs. Without abandons every test therefore ends after
      2 * total_pairs * max_attempts moves. */
  lemma RunningTestsEnd(cfg: Config, run: seq<Action>, t: int)
    requires cfg.maxAttempts >= 1 && Legal(cfg, EMPTY_DB, run) && t in After(cfg, EMPTY_DB, run).tests
    ensures var end := After(cfg, EMPTY_DB, run);
            var spent, limit := TotalSpent(cfg, EMPTY_DB, run, t, true),
                                2 * end.tests[t].totalPairs * cfg.maxAttempts + TotalGivenBack(cfg, EMPTY_DB, run, t);
            spent <= limit && (spent == limit ==> end.tests[t].status != Running)
  {
    var end := After(cfg, EMPTY_DB, run);
    EmptyInv(cfg);
    BudgetFromBirth(cfg, EMPTY_DB, run, t, true);
    BudgetNonnegative(cfg, end, t, true);
    RunKeeps(cfg, EMPTY_DB, run);
    if HasStatus(end, t, Running) {
      assert KeepsRunning(cfg, end, t);
      var p :| IsLive(end, p, t);
      assert p in Owned(end, t);
      PotentialAtLeast(cfg, end, t, true, p);
    }
  }

  /** The action gives pair p's lease back. */
  predicate Returns(db: Db, a: Action, p: int) { a.DoAbandon? && a.pair == p && CanAbandon(db, p, a.client) }

  ghost function PairGivenBack(cfg: Config, db: Db, run: seq<Action>, p: int): nat
    requires Legal(cfg, db, run)
    decreases |run|
  {
    if run == [] then 0
    else (if Returns(db, run[0], p) then 1 else 0)
         + PairGivenBack(cfg, Apply(cfg, db, run[0]), run[1..], p)
  }

  /** A pending pair always has an attempt left, counting one extra for each of its k abandons. */
  ghost predicate AttemptsWithin(cfg: Config, db: Db, p: int, k: nat) {
    p in db.pairs ==> db.pairs[p].attempts + (if db.pairs[p].status == Pending then 1 else 0) <= cfg.maxAttempts + k
  }

  lemma AttemptsStep(cfg: Config, db: Db, a: Action, p: int, k: nat)
    requires Shape(db) && Enabled(db, a) && cfg.maxAttempts >= 1 && AttemptsWithin(cfg, db, p, k)
    ensures AttemptsWithin(cfg, Apply(cfg, db, a), p, k + if Returns(db, a, p) then 1 else 0)
  {
    if p in db.pairs {
      ApplyMove(cfg, db, a, p);
    } else if p in Apply(cfg, db, a).pairs {
      NewPairsAreFresh(cfg, db, a, p);
    }
  }

  lemma {:induction false} AttemptsRun(cfg: Config, db: Db, run: seq<Action>, p: int, k: nat)
    requires Inv(cfg, db) && Legal(cfg, db, run) && cfg.maxAttempts >= 1 && AttemptsWithin(cfg, db, p, k)
    ensures AttemptsWithin(cfg, After(cfg, db, run), p, k + PairGivenBack(cfg, db, run, p))
    decreases |run|
  {
    if run != [] {
      AttemptsStep(cfg, db, run[0], p, k);
      ApplyKeeps(cfg, db, run[0]);
      AttemptsRun(cfg, Apply(cfg, db, run[0]), run[1..], p, k + if Returns(db, run[0], p) then 1 else 0);
    }
  }

  /** A pair's attempts never exceed max_attempts plus its own abandons. */
  lemma AttemptsAreBounded(cfg: Config, run: seq<Action>, p: int)
    requires cfg.maxAttempts >= 1 && Legal(cfg, EMPTY_DB, run) && p in After(cfg, EMPTY_DB, run).pairs
    ensures After(cfg, EMPTY_DB, run).pairs[p].attempts <= cfg.maxAttempts + PairGivenBack(cfg, EMPTY_DB, run, p)
  {
    EmptyInv(cfg);
    AttemptsRun(cfg, EMPTY_DB, run, p, 0);
  }
}
