/** Submits that interleave. Each submit_result is a transaction of several statements under READ
    COMMITTED: it arrives (its statement snapshot is taken), locks its pair and writes its own rows,
    locks the tests row, recomputes over the committed rows and its own, and commits. Between any two
    of these steps other submits take theirs and every other transaction may run, as far as the row
    locks let it. */
module Concurrent {
  import opened Schema
  import opened Outcomes
  import opened Lifecycle
  import opened Queue
  import opened Invariants
  import opened Keeps
  import opened Runs
  import opened Transitions
  import opened Leases
  import opened Endings
  import Sets

  /** How far a submit has come. Arrived: waiting for its pair's row lock, with the snapshot its
      first statement reads the other tables from. Inserted: pair locked, own rows written, nothing
      committed. Holding: the tests row is locked and was read. Computed: statistics and verdict are
      ready to be committed. */
  datatype Phase = Arrived(snapshot: Db) | Inserted | Holding(row: Test) | Computed(row: Test, st: Stats, end: Option<TestResult>)

  datatype Tx = Tx(pair: int, report: PairReport, phase: Phase)

  /** The committed database and the submits in flight. */
  datatype State = State(db: Db, txs: map<int, Tx>)

  const START := State(EMPTY_DB, map[])

  datatype Step =
    | Arrive(id: int, pair: int, report: PairReport)
    | LockPair(id: int)
    | LockTest(id: int)
    | Compute(id: int)
    | Commit(id: int)
    | Leave(id: int)
    | Elsewhere(a: Action)

  predicate HasPair(tx: Tx) { !tx.phase.Arrived? }

  predicate HasTest(tx: Tx) { tx.phase.Holding? || tx.phase.Computed? }

  predicate LocksPair(s: State, id: int, p: int) {
    id in s.txs && HasPair(s.txs[id]) && s.txs[id].pair == p
  }

  predicate LocksTest(s: State, id: int, t: int) {
    && id in s.txs && HasTest(s.txs[id])
    && s.txs[id].pair in s.db.pairs && s.db.pairs[s.txs[id].pair].test == t
  }

  ghost predicate PairFree(s: State, p: int) { forall id :: !LocksPair(s, id, p) }

  ghost predicate TestFree(s: State, t: int) { forall id :: !LocksTest(s, id, t) }

  /** What a transaction sees of its own: the committed rows and its two games and completed pair. */
  function Own(db: Db, tx: Tx): Db
    requires tx.pair in db.pairs && tx.report.Valid()
  {
    Insert(db, tx.pair, tx.report)
  }

  /** The verdict refresh_test reaches once the statistics st of test t are known. */
  ghost function VerdictDue(cfg: Config, db: Db, t: int, st: Stats): Option<TestResult>
    requires t in db.tests
  {
    if db.tests[t].status != Running then None
    else match Decide(cfg, db.tests[t].kind, st)
      case AcceptH1 => Some(Accepted)
      case AcceptH0 => Some(Rejected)
      case Continue =>
        if HasLivePair(db, t) then None else Some(if db.tests[t].kind.Sprt? then Inconclusive else AllPlayed)
  }

  /** Another transaction waits for rows that submits in flight have locked, or skips them. */
  ghost predicate Respects(cfg: Config, s: State, a: Action) {
    match a
    case DoAbandon(p, _) => PairFree(s, p)
    case DoRecover(locked) =>
      && (forall p | p !in locked :: PairFree(s, p))
      && (forall t | t in TestsWithDiscards(cfg, s.db, locked) :: TestFree(s, t))
    case DoClaim(_, _, locked, _) => forall p | p !in locked :: PairFree(s, p)
    case DoSetPriority(t, _) => TestFree(s, t)
    case DoStop(t) => TestFree(s, t)
    case DoSmokeCommit(t, _, _) => TestFree(s, t)
    case DoSubmit(_, _) => false
    case _ => true
  }

  ghost predicate StepEnabled(cfg: Config, s: State, step: Step) {
    match step
    case Arrive(id, p, report) => id !in s.txs && p in s.db.pairs && report.Valid()
    case LockPair(id) => id in s.txs && s.txs[id].phase.Arrived? && PairFree(s, s.txs[id].pair)
    case LockTest(id) => id in s.txs && s.txs[id].phase.Inserted? && s.txs[id].pair in s.db.pairs
                         && s.db.pairs[s.txs[id].pair].test in s.db.tests && TestFree(s, s.db.pairs[s.txs[id].pair].test)
    case Compute(id) => id in s.txs && s.txs[id].phase.Holding? && s.txs[id].pair in s.db.pairs && s.txs[id].report.Valid()
                        && s.db.pairs[s.txs[id].pair].test in s.db.tests
    case Commit(id) => id in s.txs && s.txs[id].phase.Computed? && s.txs[id].pair in s.db.pairs && s.txs[id].report.Valid()
                       && s.db.pairs[s.txs[id].pair].test in s.db.tests
    case Leave(id) => id in s.txs
    case Elsewhere(a) => Enabled(s.db, a) && Respects(cfg, s, a)
  }

  function At(s: State, id: int, phase: Phase): State
    requires id in s.txs
  {
    s.(txs := s.txs[id := s.txs[id].(phase := phase)])
  }

  /** The rows the transaction commits: its own, the statistics it computed and the verdict it reached. */
  ghost function Written(db: Db, tx: Tx): Db
    requires tx.pair in db.pairs && tx.report.Valid() && tx.phase.Computed? && db.pairs[tx.pair].test in db.tests
  {
    var t := db.pairs[tx.pair].test;
    var recorded := Record(Own(db, tx), t, tx.phase.st);
    match tx.phase.end
    case None => recorded
    case Some(result) => Finish(recorded, t, result)
  }

  ghost function Next(cfg: Config, s: State, step: Step): State
    requires StepEnabled(cfg, s, step)
  {
    match step
    case Arrive(id, p, report) => s.(txs := s.txs[id := Tx(p, report, Arrived(s.db))])
    case LockPair(id) =>
      // The locked row is read afresh; the joined rows come from the statement's snapshot.
      var tx := s.txs[id];
      if SubmitGuard(tx.phase.snapshot.(pairs := s.db.pairs), tx.pair, tx.report.client) == AcceptedResult
      then At(s, id, Inserted) else s.(txs := s.txs - {id})
    case LockTest(id) => At(s, id, Holding(s.db.tests[s.db.pairs[s.txs[id].pair].test]))
    case Compute(id) =>
      var own, t := Own(s.db, s.txs[id]), s.db.pairs[s.txs[id].pair].test;
      (match Recompute(cfg, own, t)
       case None => s.(txs := s.txs - {id})
       case Some(st) => At(s, id, Computed(s.txs[id].phase.row, st, VerdictDue(cfg, own, t, st))))
    case Commit(id) => State(Written(s.db, s.txs[id]), s.txs - {id})
    case Leave(id) => s.(txs := s.txs - {id})
    case Elsewhere(a) => s.(db := Apply(cfg, s.db, a))
  }

  // ---------------------------------------------------------------------------
  // What holds between any two steps
  // ---------------------------------------------------------------------------

  ghost predicate PhaseOk(cfg: Config, db: Db, tx: Tx)
    requires tx.pair in db.pairs && tx.report.Valid() && db.pairs[tx.pair].test in db.tests
  {
    var t := db.pairs[tx.pair].test;
    match tx.phase
    case Holding(row) => db.tests[t] == row
    case Computed(row, st, end) =>
      && db.tests[t] == row
      && Recompute(cfg, Own(db, tx), t) == Some(st)
      && end == VerdictDue(cfg, Own(db, tx), t, st)
    case _ => true
  }

  ghost predicate TxOk(cfg: Config, db: Db, tx: Tx) {
    && tx.report.Valid()
    && (HasPair(tx) ==> InHand(db, tx.pair, tx.report.client) && PhaseOk(cfg, db, tx))
  }

  ghost predicate LocksOk(s: State) {
    && (forall i, j, p | LocksPair(s, i, p) && LocksPair(s, j, p) :: i == j)
    && (forall i, j, t | LocksTest(s, i, t) && LocksTest(s, j, t) :: i == j)
  }

  ghost predicate Ok(cfg: Config, s: State) {
    && Inv(cfg, Veil(s.db))
    && (forall id | id in s.txs :: TxOk(cfg, s.db, s.txs[id]))
    && LocksOk(s)
  }

  // ---------------------------------------------------------------------------
  // What a transaction computed stays right while others commit around it
  // ---------------------------------------------------------------------------

  /** Nothing test t's statistics or its remaining work depend on has changed. */
  ghost predicate Quiet(db: Db, after: Db, t: int) {
    && SameScores(db, after, t)
    && (forall p | p in Owned(db, t) :: p in after.pairs && LiveStatus(after.pairs[p].status) == LiveStatus(db.pairs[p].status))
    && t in db.tests && t in after.tests && after.tests[t] == db.tests[t]
    && GamesOk(db) && GamesOk(after)
  }

  lemma OwnScores(db: Db, after: Db, p: int, report: PairReport)
    requires report.Valid() && p in db.pairs && p in after.pairs && after.pairs[p] == db.pairs[p]
    requires Quiet(db, after, db.pairs[p].test)
    ensures SameScores(Insert(db, p, report), Insert(after, p, report), db.pairs[p].test)
  {
    var t, x, y := db.pairs[p].test, Insert(db, p, report), Insert(after, p, report);
    InsertOwned(db, p, report, t);
    InsertOwned(after, p, report, t);
    forall q | q in Owned(x, t)
      ensures PairScore(x, q) == PairScore(y, q)
      ensures PairScore(x, q).Some? ==> Row(x, q, 0) == Row(y, q, 0) && Row(x, q, 1) == Row(y, q, 1)
    {
      if q != p {
        InsertScores(db, p, report, q);
        InsertScores(after, p, report, q);
      }
    }
  }

  lemma OwnLive(db: Db, after: Db, p: int, report: PairReport)
    requires report.Valid() && p in db.pairs && p in after.pairs && after.pairs[p] == db.pairs[p]
    requires Quiet(db, after, db.pairs[p].test)
    ensures var t := db.pairs[p].test; HasLivePair(Insert(db, p, report), t) == HasLivePair(Insert(after, p, report), t)
  {
    var t, x, y := db.pairs[p].test, Insert(db, p, report), Insert(after, p, report);
    forall q ensures IsLive(x, q, t) == IsLive(y, q, t) {
      if q != p {
        assert (q in Owned(db, t)) == (q in Owned(after, t));
      }
    }
  }

  lemma OwnGames(db: Db, p: int, report: PairReport)
    requires GamesOk(db) && report.Valid() && p in db.pairs
    ensures GamesOk(Insert(db, p, report))
  {
  }

  lemma OwnStill(cfg: Config, db: Db, after: Db, p: int, report: PairReport)
    requires report.Valid() && p in db.pairs && p in after.pairs && after.pairs[p] == db.pairs[p]
    requires Quiet(db, after, db.pairs[p].test)
    ensures var t := db.pairs[p].test;
            && Recompute(cfg, Insert(after, p, report), t) == Recompute(cfg, Insert(db, p, report), t)
            && HasLivePair(Insert(after, p, report), t) == HasLivePair(Insert(db, p, report), t)
  {
    OwnScores(db, after, p, report);
    OwnLive(db, after, p, report);
    OwnGames(db, p, report);
    OwnGames(after, p, report);
    RecomputeFrame(cfg, Insert(db, p, report), Insert(after, p, report), db.pairs[p].test);
  }

  lemma VerdictStill(cfg: Config, x: Db, y: Db, t: int, st: Stats)
    requires t in x.tests && t in y.tests && y.tests[t] == x.tests[t] && HasLivePair(x, t) == HasLivePair(y, t)
    ensures VerdictDue(cfg, y, t, st) == VerdictDue(cfg, x, t, st)
  {
  }

  lemma PhaseStill(cfg: Config, db: Db, after: Db, tx: Tx)
    requires TxOk(cfg, db, tx) && HasTest(tx)
    requires tx.pair in after.pairs && after.pairs[tx.pair] == db.pairs[tx.pair]
    requires Quiet(db, after, db.pairs[tx.pair].test)
    ensures PhaseOk(cfg, after, tx)
  {
    OwnStill(cfg, db, after, tx.pair, tx.report);
    if tx.phase.Computed? {
      VerdictStill(cfg, Own(db, tx), Own(after, tx), db.pairs[tx.pair].test, tx.phase.st);
    }
  }

  lemma StillOk(cfg: Config, db: Db, after: Db, tx: Tx)
    requires TxOk(cfg, db, tx) && HasPair(tx)
    requires tx.pair in after.pairs && after.pairs[tx.pair] == db.pairs[tx.pair] && db.tests.Keys <= after.tests.Keys
    requires HasTest(tx) ==> Quiet(db, after, db.pairs[tx.pair].test)
    ensures TxOk(cfg, after, tx)
  {
    if HasTest(tx) {
      PhaseStill(cfg, db, after, tx);
    }
  }

  // ---------------------------------------------------------------------------
  // Other transactions
  // ---------------------------------------------------------------------------

  /** What a transaction that is no submit may do to a pair. */
  ghost predicate EnvMove(cfg: Config, db: Db, a: Action, after: Db, p: int)
    requires p in db.pairs
  {
    p in after.pairs && GamesSame(db, after, p)
    && var x, y := db.pairs[p], after.pairs[p];
       || y == x
       || (a.DoClaim? && x.status == Pending && y.status == Leased && y.test == x.test && y.position == x.position)
       || (a.DoAbandon? && a.pair == p && x.status == Leased && y == Requeue(x))
       || (a.DoRecover? && IsExpired(db, p, a.locked) && y == RecoverRow(cfg, x))
  }

  lemma VeiledApply(cfg: Config, db: Db, a: Action)
    requires Shape(Veil(db)) && Enabled(db, a) && !a.DoSubmit?
    ensures Enabled(Veil(db), a)
    ensures Apply(cfg, Veil(db), a).pairs == Apply(cfg, db, a).pairs && Apply(cfg, Veil(db), a).games == Apply(cfg, db, a).games
  {
    VeilAlike(db);
    ApplyAlike(cfg, db, Veil(db), a);
  }

  lemma EnvPair(cfg: Config, db: Db, a: Action, p: int)
    requires Shape(Veil(db)) && Enabled(db, a) && !a.DoSubmit? && p in db.pairs
    ensures EnvMove(cfg, db, a, Apply(cfg, db, a), p)
  {
    VeiledApply(cfg, db, a);
    ApplyMove(cfg, Veil(db), a, p);
    MoveUnveiled(cfg, db, a, Apply(cfg, Veil(db), a), Apply(cfg, db, a), p);
  }

  lemma MoveUnveiled(cfg: Config, db: Db, a: Action, veiled: Db, after: Db, p: int)
    requires Enabled(Veil(db), a) && !a.DoSubmit? && p in db.pairs
    requires PairMove(cfg, Veil(db), a, veiled, p)
    requires veiled.pairs == after.pairs && veiled.games == after.games
    ensures EnvMove(cfg, db, a, after, p)
  {
  }

  lemma EnvKeeps(cfg: Config, db: Db, a: Action)
    requires Inv(cfg, Veil(db)) && Enabled(db, a) && !a.DoSubmit?
    ensures Inv(cfg, Veil(Apply(cfg, db, a)))
  {
    VeilAlike(db);
    ApplyAlike(cfg, db, Veil(db), a);
    ApplyKeeps(cfg, Veil(db), a);
    VeilKeeps(cfg, Apply(cfg, Veil(db), a));
    AlikeVeils(Apply(cfg, db, a), Apply(cfg, Veil(db), a));
  }

  lemma FinishElsewhere(db: Db, u: int, result: TestResult, t: int)
    requires u in db.tests && t in db.tests && db.tests[t].status != Queued && u != t
    ensures t in Finish(db, u, result).tests && Finish(db, u, result).tests[t] == db.tests[t]
  {
    PromoteSteps(Change(db, u, Finished, result));
  }

  /** A refresh of another test leaves a test that does not wait alone. */
  lemma RefreshElsewhere(cfg: Config, db: Db, u: int, t: int)
    requires t in db.tests && db.tests[t].status != Queued && u != t && Refresh(cfg, db, u).Some?
    ensures t in Refresh(cfg, db, u).value.tests && Refresh(cfg, db, u).value.tests[t] == db.tests[t]
  {
    if u in db.tests {
      var st := Recompute(cfg, db, u).value;
      SettleElsewhere(cfg, Record(db, u, st), u, st, t);
    }
  }

  lemma SettleElsewhere(cfg: Config, mid: Db, u: int, st: Stats, t: int)
    requires u in mid.tests && t in mid.tests && mid.tests[t].status != Queued && u != t
    ensures t in Settle(cfg, mid, u, st).tests && Settle(cfg, mid, u, st).tests[t] == mid.tests[t]
  {
    match Decide(cfg, mid.tests[u].kind, st)
    case AcceptH1 => FinishElsewhere(mid, u, Accepted, t);
    case AcceptH0 => FinishElsewhere(mid, u, Rejected, t);
    case Continue => FinishElsewhere(mid, u, if mid.tests[u].kind.Sprt? then Inconclusive else AllPlayed, t);
  }

  lemma {:induction false} RefreshAllElsewhere(cfg: Config, db: Db, ts: set<int>, t: int)
    requires t in db.tests && db.tests[t].status != Queued && t !in ts && RefreshAll(cfg, db, ts).Some?
    ensures t in RefreshAll(cfg, db, ts).value.tests && RefreshAll(cfg, db, ts).value.tests[t] == db.tests[t]
    decreases |ts|
  {
    if ts != {} {
      var u := Sets.Min(ts);
      RefreshElsewhere(cfg, db, u, t);
      RefreshAllElsewhere(cfg, Refresh(cfg, db, u).value, ts - {u}, t);
    }
  }

  /** Action a does not write the row of test t, whether it locks it or not. */
  ghost predicate LeavesTest(cfg: Config, db: Db, a: Action, t: int) {
    match a
    case DoSetPriority(u, _) => u != t
    case DoStop(u) => u != t
    case DoSmokeCommit(u, _, _) => u != t
    case DoRecover(locked) => t !in TestsWithDiscards(cfg, db, locked)
    case DoSubmit(_, _) => false
    case _ => true
  }

  lemma SmokeElsewhere(cfg: Config, db: Db, u: int, built: bool, orders: seq<real>, t: int)
    requires t in db.tests && db.tests[t].status != Queued && u != t
    ensures var after := SmokeCommit(cfg, db, u, built, orders); t in after.tests && after.tests[t] == db.tests[t]
  {
    if HasStatus(db, u, Validating) && built && |orders| >= db.tests[u].totalPairs {
      var queued := SetStatus(AddPairs(db, u, orders), u, Queued);
      if Refresh(cfg, queued, u).Some? {
        RefreshElsewhere(cfg, queued, u, t);
        PromoteSteps(Refresh(cfg, queued, u).value);
      }
    }
  }

  lemma RecoverElsewhere(cfg: Config, db: Db, locked: set<int>, t: int)
    requires t in db.tests && db.tests[t].status != Queued && t !in TestsWithDiscards(cfg, db, locked)
    ensures var after := Recover(cfg, db, locked); t in after.tests && after.tests[t] == db.tests[t]
  {
    var ts, mid := TestsWithDiscards(cfg, db, locked), RecoverRows(cfg, db, locked);
    if RefreshAll(cfg, mid, ts).Some? {
      RefreshAllElsewhere(cfg, mid, ts, t);
    }
  }

  lemma EnvTest(cfg: Config, db: Db, a: Action, t: int)
    requires t in db.tests && t < db.nextTest && db.tests[t].status != Queued && Enabled(db, a) && LeavesTest(cfg, db, a, t)
    ensures t in Apply(cfg, db, a).tests && Apply(cfg, db, a).tests[t] == db.tests[t]
  {
    match a
    case DoStop(u) => if u in db.tests { PromoteSteps(SetStatus(db, u, Stopped)); }
    case DoSmokeCommit(u, built, orders) => SmokeElsewhere(cfg, db, u, built, orders, t);
    case DoRecover(locked) => RecoverElsewhere(cfg, db, locked, t);
    case DoPromote => PromoteSteps(db);
    case _ =>
  }

  lemma EnvOwned(cfg: Config, db: Db, a: Action, t: int)
    requires Inv(cfg, Veil(db)) && Enabled(db, a) && !a.DoSubmit? && t in db.tests && Owned(db, t) != {}
    ensures Owned(Apply(cfg, db, a), t) == Owned(db, t)
  {
    VeiledApply(cfg, db, a);
    assert Owned(Veil(db), t) == Owned(db, t);
    OwnedStep(cfg, Veil(db), a, t);
    assert Owned(Apply(cfg, Veil(db), a), t) == Owned(Apply(cfg, db, a), t);
  }

  lemma EnvQuietPair(cfg: Config, db: Db, a: Action, after: Db, p: int)
    requires p in db.pairs && EnvMove(cfg, db, a, after, p) && LeavesTest(cfg, db, a, db.pairs[p].test)
    ensures p in after.pairs && LiveStatus(after.pairs[p].status) == LiveStatus(db.pairs[p].status)
    ensures PairScore(db, p) == PairScore(after, p)
    ensures Row(db, p, 0) == Row(after, p, 0) && Row(db, p, 1) == Row(after, p, 1)
  {
    if a.DoRecover? && IsExpired(db, p, a.locked) {
      assert OutOfAttempts(cfg, db.pairs[p]) ==> db.pairs[p].test in TestsWithDiscards(cfg, db, a.locked);
    }
  }

  lemma EnvScores(cfg: Config, db: Db, a: Action, t: int)
    requires Inv(cfg, Veil(db)) && Enabled(db, a) && t in db.tests && LeavesTest(cfg, db, a, t) && Owned(db, t) != {}
    ensures SameScores(db, Apply(cfg, db, a), t)
    ensures forall p | p in Owned(db, t) ::
              p in Apply(cfg, db, a).pairs && LiveStatus(Apply(cfg, db, a).pairs[p].status) == LiveStatus(db.pairs[p].status)
  {
    var after := Apply(cfg, db, a);
    EnvOwned(cfg, db, a, t);
    forall p | p in Owned(db, t)
      ensures p in after.pairs && LiveStatus(after.pairs[p].status) == LiveStatus(db.pairs[p].status)
      ensures PairScore(db, p) == PairScore(after, p)
      ensures Row(db, p, 0) == Row(after, p, 0) && Row(db, p, 1) == Row(after, p, 1)
    {
      EnvPair(cfg, db, a, p);
      EnvQuietPair(cfg, db, a, after, p);
    }
  }

  lemma VeiledGamesOk(cfg: Config, db: Db)
    requires Inv(cfg, Veil(db))
    ensures GamesOk(db)
    ensures forall t | t in db.tests :: t < db.nextTest
  {
    assert GamesOk(Veil(db));
    forall t | t in db.tests ensures t < db.nextTest {
      assert TestOk(Veil(db), t);
    }
  }

  lemma EnvQuiet(cfg: Config, db: Db, a: Action, t: int)
    requires Inv(cfg, Veil(db)) && Enabled(db, a) && t in db.tests && LeavesTest(cfg, db, a, t)
    requires Owned(db, t) != {} && db.tests[t].status != Queued
    ensures Quiet(db, Apply(cfg, db, a), t)
  {
    VeiledGamesOk(cfg, db);
    EnvTest(cfg, db, a, t);
    EnvKeeps(cfg, db, a);
    VeiledGamesOk(cfg, Apply(cfg, db, a));
    EnvScores(cfg, db, a, t);
  }

  /** The tests of pairs in hand do not wait. */
  lemma InHandTest(cfg: Config, db: Db, p: int, client: int)
    requires Inv(cfg, Veil(db)) && InHand(db, p, client)
    ensures p in Owned(db, db.pairs[p].test) && db.tests[db.pairs[p].test].status != Queued
    ensures db.tests[db.pairs[p].test].status != Validating
  {
    var t := db.pairs[p].test;
    assert p in Owned(Veil(db), t) && TestOk(Veil(db), t);
  }

  lemma EnvTestKeys(cfg: Config, db: Db, a: Action)
    requires Enabled(db, a)
    ensures db.tests.Keys <= Apply(cfg, db, a).tests.Keys
  {
    if !a.DoInsertTest? {
      ApplySizes(cfg, db, a);
    }
  }

  lemma EnvLeaves(cfg: Config, s: State, a: Action, id: int)
    requires Ok(cfg, s) && Enabled(s.db, a) && Respects(cfg, s, a) && id in s.txs
    requires HasPair(s.txs[id])
    ensures EnvMove(cfg, s.db, a, Apply(cfg, s.db, a), s.txs[id].pair)
    ensures Apply(cfg, s.db, a).pairs[s.txs[id].pair] == s.db.pairs[s.txs[id].pair]
    ensures HasTest(s.txs[id]) ==> LeavesTest(cfg, s.db, a, s.db.pairs[s.txs[id].pair].test)
  {
    var tx := s.txs[id];
    assert TxOk(cfg, s.db, tx);
    assert LocksPair(s, id, tx.pair);
    assert HasTest(tx) ==> LocksTest(s, id, s.db.pairs[tx.pair].test);
    EnvPair(cfg, s.db, a, tx.pair);
  }

  lemma ElsewhereTx(cfg: Config, s: State, a: Action, id: int)
    requires Ok(cfg, s) && Enabled(s.db, a) && Respects(cfg, s, a) && id in s.txs
    ensures TxOk(cfg, Apply(cfg, s.db, a), s.txs[id])
  {
    var tx := s.txs[id];
    assert TxOk(cfg, s.db, tx);
    if HasPair(tx) {
      EnvLeaves(cfg, s, a, id);
      InHandTest(cfg, s.db, tx.pair, tx.report.client);
      EnvTestKeys(cfg, s.db, a);
      if HasTest(tx) {
        EnvQuiet(cfg, s.db, a, s.db.pairs[tx.pair].test);
      }
      StillOk(cfg, s.db, Apply(cfg, s.db, a), tx);
    }
  }

  lemma ElsewhereKeeps(cfg: Config, s: State, a: Action)
    requires Ok(cfg, s) && StepEnabled(cfg, s, Elsewhere(a))
    ensures Ok(cfg, Next(cfg, s, Elsewhere(a)))
  {
    var after := Next(cfg, s, Elsewhere(a));
    EnvKeeps(cfg, s.db, a);
    forall id | id in s.txs ensures TxOk(cfg, after.db, s.txs[id]) {
      ElsewhereTx(cfg, s, a, id);
    }
    assert LocksOk(after) by {
      forall id, t | LocksTest(after, id, t) ensures LocksTest(s, id, t) {
        assert TxOk(cfg, s.db, s.txs[id]);
        EnvLeaves(cfg, s, a, id);
      }
      forall id, p | LocksPair(after, id, p) ensures LocksPair(s, id, p) {
      }
    }
  }

  // ---------------------------------------------------------------------------
  // Commit
  // ---------------------------------------------------------------------------

  /** A commit writes what refresh_test, run on the spot on the committed rows and the transaction's
      own, would write. */
  lemma CommitIsRefresh(cfg: Config, db: Db, tx: Tx)
    requires TxOk(cfg, db, tx) && tx.phase.Computed?
    ensures Refresh(cfg, Own(db, tx), db.pairs[tx.pair].test) == Some(Written(db, tx))
  {
    var t, own := db.pairs[tx.pair].test, Own(db, tx);
    var recorded := Record(own, t, tx.phase.st);
    assert forall q :: IsLive(recorded, q, t) == IsLive(own, q, t);
  }

  lemma CommitKeepsDb(cfg: Config, db: Db, tx: Tx)
    requires Inv(cfg, Veil(db)) && TxOk(cfg, db, tx) && tx.phase.Computed?
    ensures Inv(cfg, Veil(Written(db, tx)))
  {
    var t, veiled := db.pairs[tx.pair].test, Veil(db);
    CommitIsRefresh(cfg, db, tx);
    VeilAlike(db);
    assert Alike(Own(db, tx), Own(veiled, tx));
    OwnGames(veiled, tx.pair, tx.report);
    RefreshAlike(cfg, Own(db, tx), Own(veiled, tx), t);
    InsertKeeps(cfg, veiled, tx.pair, tx.report);
    RefreshOneKeeps(cfg, Own(veiled, tx), t);
    var after := Refresh(cfg, Own(veiled, tx), t).value;
    VeilKeeps(cfg, after);
    AlikeVeils(Written(db, tx), after);
  }

  /** A commit's pairs and games are the committed ones with its own. */
  lemma CommitRows(cfg: Config, db: Db, tx: Tx)
    requires TxOk(cfg, db, tx) && tx.phase.Computed?
    ensures Written(db, tx).pairs == Own(db, tx).pairs && Written(db, tx).games == Own(db, tx).games
    ensures Written(db, tx).tests.Keys == db.tests.Keys
  {
    CommitIsRefresh(cfg, db, tx);
    RefreshSamePairs(cfg, Own(db, tx), db.pairs[tx.pair].test);
    RefreshSteps(cfg, Own(db, tx), db.pairs[tx.pair].test);
  }

  /** Committing one transaction leaves what another one knows true. */
  lemma CommitOther(cfg: Config, s: State, id: int, other: int)
    requires Ok(cfg, s) && StepEnabled(cfg, s, Commit(id)) && other in s.txs && other != id
    ensures TxOk(cfg, Written(s.db, s.txs[id]), s.txs[other])
  {
    var tx, ox := s.txs[id], s.txs[other];
    assert TxOk(cfg, s.db, tx) && TxOk(cfg, s.db, ox);
    if HasPair(ox) {
      assert LocksPair(s, id, tx.pair) && LocksPair(s, other, ox.pair);
      assert ox.pair != tx.pair;
      CommitRows(cfg, s.db, tx);
      if HasTest(ox) {
        var u := s.db.pairs[ox.pair].test;
        assert LocksTest(s, id, s.db.pairs[tx.pair].test) && LocksTest(s, other, u);
        InHandTest(cfg, s.db, ox.pair, ox.report.client);
        CommitQuiet(cfg, s.db, tx, u);
      }
      StillOk(cfg, s.db, Written(s.db, tx), ox);
    }
  }

  lemma SameRowsQuiet(db: Db, own: Db, after: Db, u: int)
    requires SameScores(db, own, u) && GamesOk(db) && GamesOk(own)
    requires forall p | p in Owned(db, u) :: p in own.pairs && own.pairs[p].status == db.pairs[p].status
    requires after.pairs == own.pairs && after.games == own.games
    requires u in db.tests && u in after.tests && after.tests[u] == db.tests[u]
    ensures Quiet(db, after, u)
  {
    assert Owned(after, u) == Owned(own, u);
    forall p | p in Owned(db, u) ensures PairScore(after, p) == PairScore(own, p) {
    }
  }

  /** The refresh of test t, seen from another test u. */
  lemma RefreshQuiet(cfg: Config, db: Db, own: Db, t: int, u: int)
    requires SameScores(db, own, u) && GamesOk(db) && GamesOk(own) && own.tests == db.tests
    requires forall p | p in Owned(db, u) :: p in own.pairs && own.pairs[p].status == db.pairs[p].status
    requires u in db.tests && db.tests[u].status != Queued && u != t && Refresh(cfg, own, t).Some?
    ensures Quiet(db, Refresh(cfg, own, t).value, u)
  {
    RefreshSamePairs(cfg, own, t);
    RefreshElsewhere(cfg, own, t, u);
    SameRowsQuiet(db, own, Refresh(cfg, own, t).value, u);
  }

  lemma CommitQuiet(cfg: Config, db: Db, tx: Tx, u: int)
    requires Inv(cfg, Veil(db)) && TxOk(cfg, db, tx) && tx.phase.Computed?
    requires u in db.tests && db.tests[u].status != Queued && u != db.pairs[tx.pair].test
    ensures Quiet(db, Written(db, tx), u)
  {
    CommitIsRefresh(cfg, db, tx);
    VeiledGamesOk(cfg, db);
    OwnGames(db, tx.pair, tx.report);
    InsertSame(db, tx.pair, tx.report, u);
    RefreshQuiet(cfg, db, Own(db, tx), db.pairs[tx.pair].test, u);
  }

  lemma CommitLocks(cfg: Config, s: State, id: int)
    requires LocksOk(s) && StepEnabled(cfg, s, Commit(id)) && TxOk(cfg, s.db, s.txs[id])
    ensures LocksOk(Next(cfg, s, Commit(id)))
  {
    var tx, after := s.txs[id], Next(cfg, s, Commit(id));
    CommitRows(cfg, s.db, tx);
    assert forall i, t :: LocksTest(after, i, t) ==> LocksTest(s, i, t);
    assert forall i, p :: LocksPair(after, i, p) ==> LocksPair(s, i, p);
  }

  lemma CommitKeeps(cfg: Config, s: State, id: int)
    requires Ok(cfg, s) && StepEnabled(cfg, s, Commit(id))
    ensures Ok(cfg, Next(cfg, s, Commit(id)))
  {
    var tx, after := s.txs[id], Next(cfg, s, Commit(id));
    assert TxOk(cfg, s.db, tx);
    CommitKeepsDb(cfg, s.db, tx);
    CommitLocks(cfg, s, id);
    forall other | other in after.txs ensures TxOk(cfg, after.db, after.txs[other]) {
      CommitOther(cfg, s, id, other);
    }
  }

  // ---------------------------------------------------------------------------
  // The other steps of a submit
  // ---------------------------------------------------------------------------

  lemma LockPairKeeps(cfg: Config, s: State, id: int)
    requires Ok(cfg, s) && StepEnabled(cfg, s, LockPair(id))
    ensures Ok(cfg, Next(cfg, s, LockPair(id)))
  {
    var after, tx := Next(cfg, s, LockPair(id)), s.txs[id];
    assert TxOk(cfg, s.db, tx);
    if id in after.txs {
      assert RowOk(Veil(s.db), s.db.pairs[tx.pair]);
      assert forall i, p :: LocksPair(after, i, p) ==> LocksPair(s, i, p) || (i == id && p == tx.pair);
      assert forall i, t :: LocksTest(after, i, t) ==> LocksTest(s, i, t);
    } else {
      LeaveKeeps(cfg, s, id);
    }
  }

  lemma LockTestKeeps(cfg: Config, s: State, id: int)
    requires Ok(cfg, s) && StepEnabled(cfg, s, LockTest(id))
    ensures Ok(cfg, Next(cfg, s, LockTest(id)))
  {
    var after, tx := Next(cfg, s, LockTest(id)), s.txs[id];
    assert TxOk(cfg, s.db, tx);
    assert TxOk(cfg, s.db, after.txs[id]);
    assert forall i, p :: LocksPair(after, i, p) ==> LocksPair(s, i, p);
    assert forall i, t :: LocksTest(after, i, t) ==> LocksTest(s, i, t) || (i == id && t == s.db.pairs[tx.pair].test);
  }

  lemma ComputeKeeps(cfg: Config, s: State, id: int)
    requires Ok(cfg, s) && StepEnabled(cfg, s, Compute(id))
    ensures Ok(cfg, Next(cfg, s, Compute(id)))
  {
    var after, tx := Next(cfg, s, Compute(id)), s.txs[id];
    assert TxOk(cfg, s.db, tx);
    if id in after.txs {
      assert TxOk(cfg, s.db, after.txs[id]);
      assert forall i, p :: LocksPair(after, i, p) ==> LocksPair(s, i, p);
      assert forall i, t :: LocksTest(after, i, t) ==> LocksTest(s, i, t);
    } else {
      LeaveKeeps(cfg, s, id);
    }
  }

  lemma LeaveKeeps(cfg: Config, s: State, id: int)
    requires Ok(cfg, s)
    ensures Ok(cfg, s.(txs := s.txs - {id}))
  {
    var after := s.(txs := s.txs - {id});
    assert forall i, p :: LocksPair(after, i, p) ==> LocksPair(s, i, p);
    assert forall i, t :: LocksTest(after, i, t) ==> LocksTest(s, i, t);
  }

  lemma ArriveKeeps(cfg: Config, s: State, id: int, p: int, report: PairReport)
    requires Ok(cfg, s) && StepEnabled(cfg, s, Arrive(id, p, report))
    ensures Ok(cfg, Next(cfg, s, Arrive(id, p, report)))
  {
    var after := Next(cfg, s, Arrive(id, p, report));
    assert forall i, q :: LocksPair(after, i, q) ==> LocksPair(s, i, q);
    assert forall i, t :: LocksTest(after, i, t) ==> LocksTest(s, i, t);
  }

  lemma StepKeeps(cfg: Config, s: State, step: Step)
    requires Ok(cfg, s) && StepEnabled(cfg, s, step)
    ensures Ok(cfg, Next(cfg, s, step))
  {
    match step
    case Arrive(id, p, report) => ArriveKeeps(cfg, s, id, p, report);
    case LockPair(id) => LockPairKeeps(cfg, s, id);
    case LockTest(id) => LockTestKeeps(cfg, s, id);
    case Compute(id) => ComputeKeeps(cfg, s, id);
    case Commit(id) => CommitKeeps(cfg, s, id);
    case Leave(id) => LeaveKeeps(cfg, s, id);
    case Elsewhere(a) => ElsewhereKeeps(cfg, s, a);
  }
}
