/** What a lease is worth: until its deadline nobody takes the pair from its holder, and the first
    recovery after the deadline does. */
module LeaseTerms {
  import opened Schema
  import opened Lifecycle
  import opened Queue
  import opened Invariants
  import opened Runs
  import opened Transitions
  import opened Claims
  import Keeps
  import Sets

  /** Pair p is leased to the client until the deadline, or complete with the client's result. */
  predicate Kept(db: Db, p: int, client: int, deadline: real) {
    && p in db.pairs && Holds(db.pairs[p], client)
    && (db.pairs[p].status == Completed || (db.pairs[p].status == Leased && db.pairs[p].leaseExpiresAt == Some(deadline)))
  }

  predicate GivesUp(a: Action, p: int, client: int) { a.DoAbandon? && a.pair == p && a.client == client }

  lemma RefreshTime(cfg: Config, db: Db, t: int)
    requires Refresh(cfg, db, t).Some?
    ensures Refresh(cfg, db, t).value.now == db.now
  {
    if t in db.tests {
      RefreshSteps(cfg, db, t);
    }
  }

  lemma {:induction false} RefreshAllTime(cfg: Config, db: Db, ts: set<int>)
    requires RefreshAll(cfg, db, ts).Some?
    ensures RefreshAll(cfg, db, ts).value.now == db.now
    decreases |ts|
  {
    if ts != {} {
      var t := Sets.Min(ts);
      RefreshTime(cfg, db, t);
      RefreshAllTime(cfg, Refresh(cfg, db, t).value, ts - {t});
    }
  }

  lemma SmokeTime(cfg: Config, db: Db, u: int, built: bool, orders: seq<real>)
    ensures SmokeCommit(cfg, db, u, built, orders).now == db.now
  {
    if HasStatus(db, u, Validating) && built && |orders| >= db.tests[u].totalPairs {
      var queued := Keeps.WithPairs(db, u, orders);
      if Refresh(cfg, queued, u).Some? {
        RefreshTime(cfg, queued, u);
        PromoteSteps(Refresh(cfg, queued, u).value);
      }
    }
  }

  lemma SubmitTime(cfg: Config, db: Db, p: int, report: PairReport)
    requires report.Valid()
    ensures Submit(cfg, db, p, report).0.now == db.now
  {
    if SubmitGuard(db, p, report.client) == AcceptedResult {
      if Refresh(cfg, Insert(db, p, report), db.pairs[p].test).Some? {
        RefreshTime(cfg, Insert(db, p, report), db.pairs[p].test);
      }
    }
  }

  lemma RecoverTime(cfg: Config, db: Db, locked: set<int>)
    ensures Recover(cfg, db, locked).now == db.now
  {
    var ts, mid := TestsWithDiscards(cfg, db, locked), RecoverRows(cfg, db, locked);
    if RefreshAll(cfg, mid, ts).Some? {
      RefreshAllTime(cfg, mid, ts);
    }
  }

  lemma StopTime(db: Db, u: int)
    ensures Stop(db, u).now == db.now
  {
    if u in db.tests {
      PromoteSteps(SetStatus(db, u, Stopped));
    }
  }

  /** Only the clock moves the time, and forwards. */
  lemma TimeStep(cfg: Config, db: Db, a: Action)
    requires Enabled(db, a)
    ensures Apply(cfg, db, a).now == db.now + if a.DoTick? then a.dt else 0.0
  {
    match a
    case DoSmokeCommit(u, built, orders) => SmokeTime(cfg, db, u, built, orders);
    case DoSubmit(p, report) => SubmitTime(cfg, db, p, report);
    case DoRecover(locked) => RecoverTime(cfg, db, locked);
    case DoStop(u) => StopTime(db, u);
    case DoPromote => PromoteSteps(db);
    case _ =>
  }

  lemma {:induction false} TimeGoesOn(cfg: Config, db: Db, run: seq<Action>)
    requires Legal(cfg, db, run)
    ensures After(cfg, db, run).now >= db.now
    decreases |run|
  {
    if run != [] {
      TimeStep(cfg, db, run[0]);
      TimeGoesOn(cfg, Apply(cfg, db, run[0]), run[1..]);
    }
  }

  lemma KeptStep(cfg: Config, db: Db, a: Action, p: int, client: int, deadline: real)
    requires Shape(db) && Enabled(db, a) && Kept(db, p, client, deadline)
    requires db.now <= deadline && !GivesUp(a, p, client)
    ensures Kept(Apply(cfg, db, a), p, client, deadline)
  {
    ApplyMove(cfg, db, a, p);
  }

  lemma {:induction false} KeptRun(cfg: Config, db: Db, run: seq<Action>, p: int, client: int, deadline: real)
    requires Inv(cfg, db) && Legal(cfg, db, run) && Kept(db, p, client, deadline)
    requires After(cfg, db, run).now <= deadline
    requires forall i | 0 <= i < |run| :: !GivesUp(run[i], p, client)
    ensures Kept(After(cfg, db, run), p, client, deadline)
    decreases |run|
  {
    if run != [] {
      TimeGoesOn(cfg, db, run);
      KeptStep(cfg, db, run[0], p, client, deadline);
      ApplyKeeps(cfg, db, run[0]);
      KeptRun(cfg, Apply(cfg, db, run[0]), run[1..], p, client, deadline);
    }
  }

  /** A claim leaves its rows leased to the client, for at least the least term there is. */
  lemma ClaimedForTerm(cfg: Config, db: Db, client: int, slotsFree: int, locked: set<int>, picked: set<int>, p: int)
    requires LegalPick(db, client, slotsFree, locked, picked) && p in picked
    ensures p in db.pairs && db.pairs[p].test in db.tests && client in db.clients
    ensures var term := LeaseSeconds(cfg, db.tests[db.pairs[p].test], db.clients[client]);
            term >= cfg.leaseTtlMinSeconds && Kept(Claim(cfg, db, client, picked), p, client, db.now + term)
  {
    Keeps.PickedRows(db, client, slotsFree, locked, picked, p);
  }

  /** Within the term the client's result is not refused as a lost lease. */
  predicate Safe(db: Db, p: int, client: int, deadline: real) {
    && Kept(db, p, client, deadline)
    && SubmitGuard(db, p, client) != LeaseLost && SubmitGuard(db, p, client) != PairNotFound
  }

  lemma KeptUntilDeadline(cfg: Config, db: Db, run: seq<Action>, p: int, client: int, deadline: real)
    requires Inv(cfg, db) && Legal(cfg, db, run) && Kept(db, p, client, deadline)
    requires forall i | 0 <= i < |run| :: !GivesUp(run[i], p, client)
    ensures After(cfg, db, run).now <= deadline ==> Safe(After(cfg, db, run), p, client, deadline)
  {
    if After(cfg, db, run).now <= deadline {
      KeptRun(cfg, db, run, p, client, deadline);
    }
  }

  /** A claim gives the client the pair for the whole term, whatever else happens meanwhile, unless
      the client gives it up; a result that comes in time is never refused as a lost lease. */
  lemma LeaseLastsItsTerm(cfg: Config, db: Db, client: int, slotsFree: int, locked: set<int>, picked: set<int>,
                          claimed: Db, run: seq<Action>, p: int) returns (deadline: real)
    requires Inv(cfg, db) && LegalPick(db, client, slotsFree, locked, picked) && p in picked
    requires claimed == Claim(cfg, db, client, picked) && Legal(cfg, claimed, run)
    requires forall i | 0 <= i < |run| :: !GivesUp(run[i], p, client)
    ensures p in db.pairs && db.pairs[p].test in db.tests && client in db.clients
    ensures deadline == db.now + LeaseSeconds(cfg, db.tests[db.pairs[p].test], db.clients[client])
    ensures IsTerm(cfg, db.tests[db.pairs[p].test], db.clients[client], deadline - db.now)
    ensures After(cfg, claimed, run).now <= deadline ==> Safe(After(cfg, claimed, run), p, client, deadline)
  {
    ClaimedForTerm(cfg, db, client, slotsFree, locked, picked, p);
    deadline := db.now + LeaseSeconds(cfg, db.tests[db.pairs[p].test], db.clients[client]);
    TermIs(cfg, db.tests[db.pairs[p].test], db.clients[client]);
    Keeps.ClaimKeeps(cfg, db, client, slotsFree, locked, picked);
    KeptUntilDeadline(cfg, claimed, run, p, client, deadline);
  }

  /** A recovery takes away exactly the leases past their deadline whose rows nobody has locked: back
      to the queue, or out of it once the attempts are used up. */
  lemma RecoveryIsExact(cfg: Config, db: Db, locked: set<int>, p: int)
    requires Inv(cfg, db) && p in db.pairs && db.pairs[p].status == Leased
    ensures var after, row := Recover(cfg, db, locked), db.pairs[p];
            && p in after.pairs
            && row.leaseExpiresAt.Some?
            && (after.pairs[p].status == Leased <==> p in locked || db.now <= row.leaseExpiresAt.value)
            && (after.pairs[p].status == Leased ==> after.pairs[p] == row)
            && (after.pairs[p].status == Pending ==> row.attempts < cfg.maxAttempts && after.pairs[p].leasedTo.None?)
            && (after.pairs[p].status == Discarded ==> row.attempts >= cfg.maxAttempts)
            && after.pairs[p].status != Completed
  {
    assert RowOk(db, db.pairs[p]);
    Keeps.RecoveryCommits(cfg, db, locked);
    RefreshAllSamePairs(cfg, RecoverRows(cfg, db, locked), TestsWithDiscards(cfg, db, locked));
  }
}
