/** Every transaction keeps the invariant. */
module Keeps {
  import opened Schema
  import opened Outcomes
  import opened Lifecycle
  import opened Queue
  import opened Invariants
  import Sets

  // ---------------------------------------------------------------------------
  // Changes of job_pairs that complete no pair: claim, abandon, lease recovery
  // ---------------------------------------------------------------------------

  predicate RowStep(a: Pair, b: Pair) {
    && b.test == a.test && b.position == a.position
    && (if a.status == Completed then b == a else b.status != Completed)
  }

  ghost predicate RowFits(db: Db, after: Db, p: int)
    requires p in db.pairs && p in after.pairs
  {
    && RowStep(db.pairs[p], after.pairs[p])
    && RowOk(after, after.pairs[p])
    && (HasStatus(db, db.pairs[p].test, Queued) ==> after.pairs[p] == db.pairs[p])
    && (LiveStatus(after.pairs[p].status) ==> LiveStatus(db.pairs[p].status))
  }

  ghost predicate PairsChange(db: Db, after: Db) {
    && after == db.(pairs := after.pairs) && after.pairs.Keys == db.pairs.Keys
    && forall p | p in db.pairs :: RowFits(db, after, p)
  }

  lemma PairsChangeOwned(db: Db, after: Db, t: int)
    requires PairsChange(db, after)
    ensures Owned(after, t) == Owned(db, t)
  {
    forall p | p in db.pairs ensures (p in Owned(after, t)) == (p in Owned(db, t)) {
      assert RowFits(db, after, p);
    }
    assert forall p :: p in Owned(after, t) <==> p in Owned(db, t);
  }

  lemma PairsChangeScores(db: Db, after: Db, t: int)
    requires PairsChange(db, after)
    ensures SameScores(db, after, t)
  {
    PairsChangeOwned(db, after, t);
    forall p | p in Owned(db, t) ensures PairScore(db, p) == PairScore(after, p) {
      assert RowFits(db, after, p);
    }
  }

  lemma PairsChangeLive(db: Db, after: Db, t: int)
    requires PairsChange(db, after)
    ensures HasLivePair(after, t) ==> HasLivePair(db, t)
  {
    if HasLivePair(after, t) {
      var p :| IsLive(after, p, t);
      assert RowFits(db, after, p);
      assert IsLive(db, p, t);
    }
  }

  lemma PairsChangeView(cfg: Config, db: Db, after: Db, t: int)
    requires PairsChange(db, after) && GamesOk(db) && GamesOk(after) && t in db.tests
    ensures Owned(after, t) == Owned(db, t)
    ensures Synced(cfg, after, t) == Synced(cfg, db, t)
    ensures VerdictFits(cfg, db, t) ==> VerdictFits(cfg, after, t)
  {
    PairsChangeOwned(db, after, t);
    PairsChangeScores(db, after, t);
    RecomputeFrame(cfg, db, after, t);
    PairsChangeLive(db, after, t);
  }

  lemma PairsChangeShape(db: Db, after: Db)
    requires PairsChange(db, after) && Shape(db)
    ensures Shape(after)
  {
    forall t | t in after.tests ensures TestOk(after, t) {
      assert TestOk(db, t);
      PairsChangeOwned(db, after, t);
      forall p | p in Owned(db, t) && after.tests[t].status == Queued ensures after.pairs[p].status == Pending {
        assert RowFits(db, after, p) && HasStatus(db, t, Queued);
      }
    }
    forall p | p in after.pairs ensures RowOk(after, after.pairs[p]) && RowStep(db.pairs[p], after.pairs[p]) {
      assert RowFits(db, after, p);
    }
    forall p | p in after.pairs && after.pairs[p].status == Completed
      ensures after.pairs[p].leasedTo.Some? && PlayedBy(after, p, after.pairs[p].leasedTo.value)
    {
      assert PlayedBy(db, p, db.pairs[p].leasedTo.value);
    }
  }

  /** ts holds every running test that may have lost its last live pair. */
  lemma PairsChangeKeeps(cfg: Config, db: Db, after: Db, ts: set<int>)
    requires Inv(cfg, db) && PairsChange(db, after)
    requires forall t | t in ts :: Owned(db, t) != {}
    requires forall t | HasStatus(db, t, Running) && t !in ts :: HasLivePair(after, t)
    ensures Almost(cfg, after, ts) && NoIdling(after)
  {
    PairsChangeShape(db, after);
    assert forall u, s :: HasStatus(after, u, s) == HasStatus(db, u, s);
    forall t | t in after.tests
      ensures if t in ts then Lagging(cfg, after, t) && Owned(after, t) != {} else Synced(cfg, after, t)
      ensures HasStatus(db, t, Finished) ==> VerdictFits(cfg, after, t)
    {
      PairsChangeView(cfg, db, after, t);
      assert Synced(cfg, db, t);
    }
    forall t | HasStatus(after, t, Running) && t !in ts ensures KeepsRunning(cfg, after, t) {
      assert KeepsRunning(cfg, db, t);
    }
    IdlingFrame(db, after);
  }

  /** In a valid database only pairs of running tests are picked. */
  lemma PickedRows(db: Db, client: int, slotsFree: int, locked: set<int>, picked: set<int>, p: int)
    requires LegalPick(db, client, slotsFree, locked, picked) && p in picked
    ensures KnownClient(db, client) && p in db.pairs && db.pairs[p].status == Pending
    ensures HasStatus(db, db.pairs[p].test, Running)
  {
    var t :| HasStatus(db, t, Running);
    assert IsPick(db, t, client, slotsFree, locked, picked);
    assert p in Available(db, t, locked);
  }

  lemma ClaimChange(cfg: Config, db: Db, client: int, slotsFree: int, locked: set<int>, picked: set<int>)
    requires PairsOk(db) && LegalPick(db, client, slotsFree, locked, picked)
    ensures PairsChange(db, Claim(cfg, db, client, picked))
  {
    forall p | p in db.pairs ensures RowFits(db, Claim(cfg, db, client, picked), p) {
      assert RowOk(db, db.pairs[p]);
      if p in picked {
        PickedRows(db, client, slotsFree, locked, picked, p);
      }
    }
  }

  lemma ClaimKeeps(cfg: Config, db: Db, client: int, slotsFree: int, locked: set<int>, picked: set<int>)
    requires Inv(cfg, db) && LegalPick(db, client, slotsFree, locked, picked)
    ensures Inv(cfg, Claim(cfg, db, client, picked))
  {
    var after := Claim(cfg, db, client, picked);
    ClaimChange(cfg, db, client, slotsFree, locked, picked);
    forall u | HasStatus(db, u, Running) ensures HasLivePair(after, u) {
      assert KeepsRunning(cfg, db, u);
      var p :| IsLive(db, p, u);
      if p in picked {
        PickedRows(db, client, slotsFree, locked, picked, p);
      }
      assert IsLive(after, p, u);
    }
    PairsChangeKeeps(cfg, db, after, {});
  }

  lemma AbandonChange(db: Db, p: int, client: int)
    requires Shape(db)
    ensures PairsChange(db, Abandon(db, p, client))
  {
    forall q | q in db.pairs ensures RowFits(db, Abandon(db, p, client), q) {
      assert RowOk(db, db.pairs[q]) && TestOk(db, db.pairs[q].test) && q in Owned(db, db.pairs[q].test);
    }
  }

  lemma AbandonKeeps(cfg: Config, db: Db, p: int, client: int)
    requires Inv(cfg, db)
    ensures Inv(cfg, Abandon(db, p, client))
  {
    var after := Abandon(db, p, client);
    AbandonChange(db, p, client);
    forall u | HasStatus(db, u, Running) ensures HasLivePair(after, u) {
      assert KeepsRunning(cfg, db, u);
      var q :| IsLive(db, q, u);
      assert IsLive(after, q, u);
    }
    PairsChangeKeeps(cfg, db, after, {});
  }

  lemma RecoverRowsChange(cfg: Config, db: Db, locked: set<int>)
    requires Shape(db)
    ensures PairsChange(db, RecoverRows(cfg, db, locked))
  {
    forall p | p in db.pairs ensures RowFits(db, RecoverRows(cfg, db, locked), p) {
      assert RowOk(db, db.pairs[p]) && TestOk(db, db.pairs[p].test) && p in Owned(db, db.pairs[p].test);
    }
  }

  lemma DiscardingTest(cfg: Config, db: Db, locked: set<int>, t: int)
    requires Shape(db) && t in TestsWithDiscards(cfg, db, locked)
    ensures t in db.tests && Owned(db, t) != {} && !HasStatus(db, t, Queued)
  {
    var p :| p in db.pairs && IsExpired(db, p, locked) && OutOfAttempts(cfg, db.pairs[p]) && db.pairs[p].test == t;
    assert p in Owned(db, t) && RowOk(db, db.pairs[p]) && TestOk(db, t);
  }

  lemma RecoverKeepsLive(cfg: Config, db: Db, locked: set<int>, t: int)
    requires HasLivePair(db, t) && t !in TestsWithDiscards(cfg, db, locked)
    ensures HasLivePair(RecoverRows(cfg, db, locked), t)
  {
    var p :| IsLive(db, p, t);
    assert IsExpired(db, p, locked) ==> !OutOfAttempts(cfg, db.pairs[p]);
    assert IsLive(RecoverRows(cfg, db, locked), p, t);
  }

  lemma RecoverRowsKeeps(cfg: Config, db: Db, locked: set<int>)
    requires Inv(cfg, db)
    ensures Almost(cfg, RecoverRows(cfg, db, locked), TestsWithDiscards(cfg, db, locked))
    ensures NoIdling(RecoverRows(cfg, db, locked))
  {
    var ts := TestsWithDiscards(cfg, db, locked);
    RecoverRowsChange(cfg, db, locked);
    forall t | t in ts ensures Owned(db, t) != {} {
      DiscardingTest(cfg, db, locked, t);
    }
    forall t | HasStatus(db, t, Running) && t !in ts ensures HasLivePair(RecoverRows(cfg, db, locked), t) {
      assert KeepsRunning(cfg, db, t);
      RecoverKeepsLive(cfg, db, locked, t);
    }
    PairsChangeKeeps(cfg, db, RecoverRows(cfg, db, locked), ts);
  }

  lemma NeverBackToQueued(cfg: Config, db: Db, t: int, u: int)
    requires t in db.tests && Refresh(cfg, db, t).Some?
    requires u in db.tests && !HasStatus(db, u, Queued)
    ensures u in Refresh(cfg, db, t).value.tests && !HasStatus(Refresh(cfg, db, t).value, u, Queued)
  {
    RefreshSteps(cfg, db, t);
    assert StatusStep(db.tests[u], Refresh(cfg, db, t).value.tests[u]);
  }

  lemma RefreshLeast(cfg: Config, db: Db, ts: set<int>, t: int)
    requires Almost(cfg, db, ts) && NoIdling(db) && t in ts
    requires forall u | u in ts :: u in db.tests && !HasStatus(db, u, Queued)
    requires Refresh(cfg, db, t).Some?
    ensures var after := Refresh(cfg, db, t).value;
            && Almost(cfg, after, ts - {t}) && NoIdling(after)
            && forall u | u in ts - {t} :: u in after.tests && !HasStatus(after, u, Queued)
  {
    var others := ts - {t};
    assert others + {t} == ts;
    RefreshKeeps(cfg, db, others, t);
    forall u | u in others
      ensures u in Refresh(cfg, db, t).value.tests && !HasStatus(Refresh(cfg, db, t).value, u, Queued)
    {
      NeverBackToQueued(cfg, db, t, u);
    }
  }

  lemma {:induction false} RefreshAllKeeps(cfg: Config, db: Db, ts: set<int>)
    requires Almost(cfg, db, ts) && NoIdling(db)
    requires forall t | t in ts :: t in db.tests && !HasStatus(db, t, Queued)
    requires RefreshAll(cfg, db, ts).Some?
    ensures Inv(cfg, RefreshAll(cfg, db, ts).value)
    decreases |ts|
  {
    if ts != {} {
      var t := Sets.Min(ts);
      RefreshLeast(cfg, db, ts, t);
      RefreshAllKeeps(cfg, Refresh(cfg, db, t).value, ts - {t});
    }
  }

  lemma RecoverKeeps(cfg: Config, db: Db, locked: set<int>)
    requires Inv(cfg, db)
    ensures Inv(cfg, Recover(cfg, db, locked))
  {
    RecoverRowsKeeps(cfg, db, locked);
    var ts, mid := TestsWithDiscards(cfg, db, locked), RecoverRows(cfg, db, locked);
    forall t | t in ts ensures t in mid.tests && !HasStatus(mid, t, Queued) {
      DiscardingTest(cfg, db, locked, t);
    }
    if RefreshAll(cfg, mid, ts).Some? {
      RefreshAllKeeps(cfg, mid, ts);
    }
  }

  /** Refreshing tests whose recomputations are all defined: none of them is lost on the way. */
  lemma {:induction false} RefreshAllCommits(cfg: Config, db: Db, ts: set<int>)
    requires GamesOk(db) && forall t | t in ts :: t in db.tests && Recompute(cfg, db, t).Some?
    ensures RefreshAll(cfg, db, ts).Some?
    decreases |ts|
  {
    if ts != {} {
      var t := Sets.Min(ts);
      var after := Refresh(cfg, db, t).value;
      RefreshSteps(cfg, db, t);
      forall u | u in ts - {t} ensures u in after.tests && Recompute(cfg, after, u).Some? {
        SamePairsSameView(cfg, db, after, u);
      }
      RefreshAllCommits(cfg, after, ts - {t});
    }
  }

  /** Ending leases changes no statistics, so the refreshes of a recovery recompute what is already
      stored and never throw. */
  lemma RecoveryCommits(cfg: Config, db: Db, locked: set<int>)
    requires Inv(cfg, db)
    ensures RefreshAll(cfg, RecoverRows(cfg, db, locked), TestsWithDiscards(cfg, db, locked)).Some?
  {
    var ts, mid := TestsWithDiscards(cfg, db, locked), RecoverRows(cfg, db, locked);
    RecoverRowsChange(cfg, db, locked);
    PairsChangeShape(db, mid);
    forall t | t in ts ensures t in mid.tests && Recompute(cfg, mid, t).Some? {
      DiscardingTest(cfg, db, locked, t);
      PairsChangeView(cfg, db, mid, t);
      assert Synced(cfg, db, t);
    }
    RefreshAllCommits(cfg, mid, ts);
  }

  // ---------------------------------------------------------------------------
  // Submit
  // ---------------------------------------------------------------------------

  /** The pair is leased to the client that reports it. */
  predicate InHand(db: Db, p: int, client: int) {
    p in db.pairs && db.pairs[p].status == Leased && Holds(db.pairs[p], client) && db.pairs[p].test in db.tests
  }

  lemma InsertScores(db: Db, p: int, report: PairReport, q: int)
    requires p in db.pairs && report.Valid() && q != p
    ensures PairScore(Insert(db, p, report), q) == PairScore(db, q)
    ensures Row(Insert(db, p, report), q, 0) == Row(db, q, 0) && Row(Insert(db, p, report), q, 1) == Row(db, q, 1)
  {
  }

  lemma InsertOwned(db: Db, p: int, report: PairReport, t: int)
    requires p in db.pairs && report.Valid()
    ensures Owned(Insert(db, p, report), t) == Owned(db, t)
  {
    var after := Insert(db, p, report);
    assert forall q :: q in Owned(after, t) <==> q in Owned(db, t);
  }

  lemma InsertPlayed(db: Db, p: int, report: PairReport, q: int)
    requires p in db.pairs && report.Valid() && q in db.pairs
    requires q != p ==> db.pairs[q].leasedTo.Some? && PlayedBy(db, q, db.pairs[q].leasedTo.value)
    requires q == p ==> Holds(db.pairs[p], report.client)
    ensures PlayedBy(Insert(db, p, report), q, db.pairs[q].leasedTo.value)
  {
    if q == p {
      var after := Insert(db, p, report);
      assert [after.games[GameKey(p, 0)].report, after.games[GameKey(p, 1)].report] == report.games;
    }
  }

  lemma InsertPairs(db: Db, p: int, report: PairReport)
    requires PairsOk(db) && report.Valid() && InHand(db, p, report.client)
    ensures PairsOk(Insert(db, p, report))
  {
    var after := Insert(db, p, report);
    forall q | q in after.pairs ensures RowOk(after, after.pairs[q]) {
      assert RowOk(db, db.pairs[q]);
    }
  }

  lemma InsertGames(db: Db, p: int, report: PairReport)
    requires GamesTableOk(db) && report.Valid() && InHand(db, p, report.client)
    ensures GamesTableOk(Insert(db, p, report))
  {
    var after := Insert(db, p, report);
    forall q | q in after.pairs && after.pairs[q].status == Completed
      ensures after.pairs[q].leasedTo.Some? && PlayedBy(after, q, after.pairs[q].leasedTo.value)
    {
      InsertPlayed(db, p, report, q);
    }
  }

  lemma InsertTests(db: Db, p: int, report: PairReport)
    requires Shape(db) && report.Valid() && InHand(db, p, report.client)
    ensures TestsOk(Insert(db, p, report))
  {
    var after := Insert(db, p, report);
    forall t | t in after.tests ensures TestOk(after, t) {
      assert TestOk(db, t);
      InsertOwned(db, p, report, t);
    }
  }

  lemma InsertSame(db: Db, p: int, report: PairReport, t: int)
    requires p in db.pairs && report.Valid()
    requires p in Owned(db, t) ==> PairScore(db, p).None? && PairScore(Insert(db, p, report), p).None?
    ensures SameScores(db, Insert(db, p, report), t)
  {
    InsertOwned(db, p, report, t);
    forall q | q in Owned(db, t) && q != p
      ensures var after := Insert(db, p, report);
              PairScore(after, q) == PairScore(db, q) && Row(after, q, 0) == Row(db, q, 0) && Row(after, q, 1) == Row(db, q, 1)
    {
      InsertScores(db, p, report, q);
    }
  }

  lemma InsertCounts(db: Db, p: int, report: PairReport)
    requires p in db.pairs && report.Valid()
    requires PairScore(db, p).None? && PairScore(Insert(db, p, report), p).Some?
    ensures Total(PentaOf(Insert(db, p, report), db.pairs[p].test)) == Total(PentaOf(db, db.pairs[p].test)) + 1
  {
    var after, t := Insert(db, p, report), db.pairs[p].test;
    forall q | q in db.pairs && q != p ensures PairScore(after, q) == PairScore(db, q) {
      InsertScores(db, p, report, q);
    }
    assert CountedPairs(after, t) == CountedPairs(db, t) + {p};
    PentaTotal(db, t);
    PentaTotal(after, t);
  }

  lemma InsertSyncs(cfg: Config, db: Db, p: int, report: PairReport)
    requires GamesTableOk(db) && report.Valid() && InHand(db, p, report.client)
    requires Synced(cfg, db, db.pairs[p].test)
    requires PairScore(Insert(db, p, report), p).None?
    ensures Synced(cfg, Insert(db, p, report), db.pairs[p].test)
  {
    var after, t := Insert(db, p, report), db.pairs[p].test;
    InsertGames(db, p, report);
    InsertSame(db, p, report, t);
    RecomputeFrame(cfg, db, after, t);
    InsertOwned(db, p, report, t);
  }

  /** The pentanomial of the pair's test grows by one pair, or its statistics do not change. */
  lemma InsertLags(cfg: Config, db: Db, p: int, report: PairReport)
    requires Shape(db) && report.Valid() && InHand(db, p, report.client)
    requires Synced(cfg, db, db.pairs[p].test)
    ensures Lagging(cfg, Insert(db, p, report), db.pairs[p].test)
  {
    var after, t := Insert(db, p, report), db.pairs[p].test;
    assert p in Owned(db, t);
    if PairScore(after, p).None? {
      InsertSyncs(cfg, db, p, report);
    } else {
      InsertCounts(db, p, report);
    }
  }

  lemma InsertView(cfg: Config, db: Db, p: int, report: PairReport, t: int)
    requires GamesOk(db) && report.Valid() && p in db.pairs && GamesOk(Insert(db, p, report))
    requires t in db.tests && t != db.pairs[p].test
    ensures SameView(cfg, db, Insert(db, p, report), t)
  {
    var after := Insert(db, p, report);
    InsertOwned(db, p, report, t);
    InsertSame(db, p, report, t);
    RecomputeFrame(cfg, db, after, t);
    assert forall q :: IsLive(after, q, t) == IsLive(db, q, t);
  }

  lemma InsertKeeps(cfg: Config, db: Db, p: int, report: PairReport)
    requires Inv(cfg, db) && report.Valid() && InHand(db, p, report.client)
    requires !HasStatus(db, db.pairs[p].test, Finished)
    ensures Almost(cfg, Insert(db, p, report), {db.pairs[p].test}) && NoIdling(Insert(db, p, report))
  {
    var after, t := Insert(db, p, report), db.pairs[p].test;
    InsertPairs(db, p, report);
    InsertGames(db, p, report);
    InsertTests(db, p, report);
    InsertLags(cfg, db, p, report);
    InsertOwned(db, p, report, t);
    assert p in Owned(db, t);
    assert forall u, s :: HasStatus(after, u, s) == HasStatus(db, u, s);
    forall u | u in after.tests && u != t
      ensures Synced(cfg, after, u)
      ensures HasStatus(db, u, Finished) ==> VerdictFits(cfg, after, u)
    {
      InsertView(cfg, db, p, report, u);
      SameViewSynced(cfg, db, after, u);
      assert Synced(cfg, db, u);
    }
    forall u | HasStatus(after, u, Running) && u != t ensures KeepsRunning(cfg, after, u) {
      InsertView(cfg, db, p, report, u);
      assert KeepsRunning(cfg, db, u);
    }
    IdlingFrame(db, after);
  }

  lemma RefreshOneKeeps(cfg: Config, db: Db, t: int)
    requires Almost(cfg, db, {t}) && NoIdling(db) && t in db.tests && Refresh(cfg, db, t).Some?
    ensures Inv(cfg, Refresh(cfg, db, t).value)
  {
    assert {} + {t} == {t};
    RefreshKeeps(cfg, db, {}, t);
  }

  lemma SubmitKeeps(cfg: Config, db: Db, p: int, report: PairReport)
    requires Inv(cfg, db) && report.Valid()
    ensures Inv(cfg, Submit(cfg, db, p, report).0)
  {
    if SubmitGuard(db, p, report.client) == AcceptedResult {
      InsertKeeps(cfg, db, p, report);
      if Refresh(cfg, Insert(db, p, report), db.pairs[p].test).Some? {
        RefreshOneKeeps(cfg, Insert(db, p, report), db.pairs[p].test);
      }
    }
  }

  // ---------------------------------------------------------------------------
  // Clients, the clock
  // ---------------------------------------------------------------------------

  /** Only clients, their ids and the clock change, and no client disappears. */
  ghost predicate PeopleChange(db: Db, after: Db) {
    && after == db.(now := after.now, clients := after.clients, nextClient := after.nextClient)
    && db.clients.Keys <= after.clients.Keys
    && (forall c | c in after.clients :: c < after.nextClient)
    && NamesUnique(after.clients)
  }

  lemma PeopleChangeShape(db: Db, after: Db)
    requires Shape(db) && PeopleChange(db, after)
    ensures Shape(after)
  {
    forall p | p in after.pairs ensures RowOk(after, after.pairs[p]) {
      assert RowOk(db, db.pairs[p]);
    }
    forall t | t in after.tests ensures TestOk(after, t) {
      assert TestOk(db, t) && Owned(after, t) == Owned(db, t);
    }
    forall p | p in after.pairs && after.pairs[p].status == Completed
      ensures PlayedBy(after, p, after.pairs[p].leasedTo.value)
    {
      assert PlayedBy(db, p, db.pairs[p].leasedTo.value);
    }
  }

  lemma PeopleChangeKeeps(cfg: Config, db: Db, after: Db)
    requires Inv(cfg, db) && PeopleChange(db, after)
    ensures Inv(cfg, after)
  {
    PeopleChangeShape(db, after);
    SameRowsKeep(cfg, db, after);
  }

  /** Pairs, games, statistics and the status of every test are as before. */
  lemma SameRowsKeep(cfg: Config, db: Db, after: Db)
    requires Inv(cfg, db) && Shape(after)
    requires after.pairs == db.pairs && after.games == db.games && after.stats == db.stats && after.history == db.history
    requires db.tests.Keys == after.tests.Keys
    requires forall t | t in db.tests ::
               && after.tests[t].kind == db.tests[t].kind && after.tests[t].status == db.tests[t].status
               && after.tests[t].result == db.tests[t].result
    ensures Inv(cfg, after)
  {
    assert forall u, s :: HasStatus(after, u, s) == HasStatus(db, u, s);
    forall t | t in after.tests
      ensures Synced(cfg, after, t)
      ensures HasStatus(db, t, Finished) ==> VerdictFits(cfg, after, t)
      ensures HasStatus(db, t, Running) ==> KeepsRunning(cfg, after, t)
    {
      SamePairsSameView(cfg, db, after, t);
      SameViewSynced(cfg, db, after, t);
      assert Synced(cfg, db, t);
      if HasStatus(db, t, Running) {
        assert KeepsRunning(cfg, db, t);
      } else if HasStatus(db, t, Finished) {
        assert VerdictFits(cfg, db, t);
      }
    }
    IdlingFrame(db, after);
  }

  // ---------------------------------------------------------------------------
  // Administration
  // ---------------------------------------------------------------------------

  lemma RankKeeps(cfg: Config, db: Db, t: int, rank: int)
    requires Inv(cfg, db) && t in db.tests
    ensures Inv(cfg, db.(tests := db.tests[t := db.tests[t].(priority := rank)]))
  {
    var after := db.(tests := db.tests[t := db.tests[t].(priority := rank)]);
    SamePairsTables(db, after);
    forall u | u in after.tests ensures TestOk(after, u) {
      assert TestOk(db, u) && Owned(after, u) == Owned(db, u);
    }
    assert Shape(after);
    SameRowsKeep(cfg, db, after);
  }

  lemma SetPriorityKeeps(cfg: Config, db: Db, t: int, rank: int)
    requires Inv(cfg, db)
    ensures Inv(cfg, SetPriority(db, t, rank))
  {
    if HasStatus(db, t, Validating) || HasStatus(db, t, Queued) {
      RankKeeps(cfg, db, t, rank);
    }
  }

  lemma NoPairsYet(db: Db)
    requires Shape(db)
    ensures db.nextTest !in db.tests && Owned(db, db.nextTest) == {}
  {
    assert db.nextTest in db.tests ==> TestOk(db, db.nextTest);
    forall p | p in db.pairs ensures db.pairs[p].test != db.nextTest {
      assert RowOk(db, db.pairs[p]);
    }
  }

  lemma InsertTestShape(db: Db, kind: Kind, totalPairs: nat, priority: int, baseMs: nat, incMs: nat)
    requires Shape(db) && totalPairs > 0
    ensures Shape(InsertTest(db, kind, totalPairs, priority, baseMs, incMs))
  {
    var after, t := InsertTest(db, kind, totalPairs, priority, baseMs, incMs), db.nextTest;
    NoPairsYet(db);
    forall u | u in after.tests ensures TestOk(after, u) {
      assert Owned(after, u) == Owned(db, u);
      assert u != t ==> TestOk(db, u);
    }
    forall p | p in after.pairs ensures RowOk(after, after.pairs[p]) {
      assert RowOk(db, db.pairs[p]);
    }
    forall p | p in after.pairs && after.pairs[p].status == Completed
      ensures PlayedBy(after, p, after.pairs[p].leasedTo.value)
    {
      assert PlayedBy(db, p, db.pairs[p].leasedTo.value);
    }
  }

  lemma InsertTestKeeps(cfg: Config, db: Db, kind: Kind, totalPairs: nat, priority: int, baseMs: nat, incMs: nat)
    requires Inv(cfg, db) && totalPairs > 0
    ensures Inv(cfg, InsertTest(db, kind, totalPairs, priority, baseMs, incMs))
  {
    var after, t := InsertTest(db, kind, totalPairs, priority, baseMs, incMs), db.nextTest;
    InsertTestShape(db, kind, totalPairs, priority, baseMs, incMs);
    NoPairsYet(db);
    assert Owned(after, t) == Owned(db, t);
    assert forall u, s :: HasStatus(after, u, s) ==> (u == t && s == Validating) || HasStatus(db, u, s);
    forall u | u in db.tests
      ensures Synced(cfg, after, u)
      ensures HasStatus(db, u, Finished) ==> VerdictFits(cfg, after, u)
      ensures HasStatus(db, u, Running) ==> KeepsRunning(cfg, after, u)
    {
      SamePairsSameView(cfg, db, after, u);
      SameViewSynced(cfg, db, after, u);
      assert Synced(cfg, db, u);
      if HasStatus(db, u, Running) {
        assert KeepsRunning(cfg, db, u);
      } else if HasStatus(db, u, Finished) {
        assert VerdictFits(cfg, db, u);
      }
    }
    IdlingFrame(db, after);
  }

  lemma StopKeeps(cfg: Config, db: Db, t: int)
    requires Inv(cfg, db)
    ensures Inv(cfg, Stop(db, t))
  {
    if t in db.tests && Stoppable(db.tests[t].status) {
      var mid := SetStatus(db, t, Stopped);
      assert TestOk(db, t);
      assert mid == Change(db, t, Stopped, db.tests[t].result);
      ChangeKeeps(cfg, db, {}, t, Stopped, db.tests[t].result);
      if db.tests[t].status == Running {
        PromoteKeeps(cfg, mid, {});
      } else {
        StillRunning(db, mid, t);
      }
    }
  }

  lemma StillRunning(db: Db, mid: Db, t: int)
    requires NoIdling(db) && t in db.tests && db.tests[t].status != Running
    requires mid.tests.Keys == db.tests.Keys && !HasStatus(mid, t, Queued)
    requires forall u | u in db.tests && u != t :: mid.tests[u] == db.tests[u]
    ensures NoIdling(mid)
  {
    if SomeTestIs(mid, Queued) {
      var q :| HasStatus(mid, q, Queued);
      assert HasStatus(db, q, Queued);
      var r :| HasStatus(db, r, Running);
      assert HasStatus(mid, r, Running);
    }
  }

  // ---------------------------------------------------------------------------
  // The smoke worker's commit phase
  // ---------------------------------------------------------------------------

  function WithPairs(db: Db, t: int, orders: seq<real>): Db
    requires t in db.tests
  {
    SetStatus(AddPairs(db, t, orders), t, Queued)
  }

  /** Test t became queued, with new pending pairs; nothing else happened. */
  ghost predicate PairsAdded(db: Db, after: Db, t: int) {
    && t in db.tests
    && after == db.(tests := db.tests[t := db.tests[t].(status := Queued)], pairs := after.pairs, nextPair := after.nextPair)
    && (forall p | p in db.pairs :: p in after.pairs && after.pairs[p] == db.pairs[p])
    && (forall p | p in after.pairs && p !in db.pairs ::
          after.pairs[p].test == t && after.pairs[p].status == Pending && after.pairs[p].leasedTo.None?)
  }

  lemma WithPairsAdded(db: Db, t: int, orders: seq<real>)
    requires PairsOk(db) && t in db.tests
    ensures PairsAdded(db, WithPairs(db, t, orders), t)
  {
  }

  lemma NewPairsOwned(db: Db, t: int, orders: seq<real>)
    requires PairsOk(db) && t in db.tests && Owned(db, t) == {}
    ensures |Owned(WithPairs(db, t, orders), t)| == |orders|
  {
    var after := WithPairs(db, t, orders);
    forall p | p in db.pairs ensures db.pairs[p].test != t {
      assert db.pairs[p].test == t ==> p in Owned(db, t);
    }
    assert forall p :: p in Owned(after, t) <==> p in Sets.Range(db.nextPair, |orders|);
    assert Owned(after, t) == Sets.Range(db.nextPair, |orders|);
  }

  lemma NewPairsOk(db: Db, t: int, orders: seq<real>)
    requires PairsOk(db) && t in db.tests && Owned(db, t) == {}
    ensures PairsOk(WithPairs(db, t, orders))
  {
    var after := WithPairs(db, t, orders);
    forall p | p in db.pairs ensures db.pairs[p].test != t {
      assert db.pairs[p].test == t ==> p in Owned(db, t);
    }
    forall p | p in after.pairs ensures p < after.nextPair && RowOk(after, after.pairs[p]) {
      assert p in db.pairs ==> RowOk(db, db.pairs[p]);
    }
  }

  lemma AddedOwned(db: Db, after: Db, t: int, u: int)
    requires PairsAdded(db, after, t) && u != t
    ensures Owned(after, u) == Owned(db, u)
  {
    forall p ensures p in Owned(after, u) <==> p in Owned(db, u) {}
  }

  lemma AddedTests(db: Db, after: Db, t: int)
    requires TestsOk(db) && PairsAdded(db, after, t) && HasStatus(db, t, Validating)
    requires |Owned(after, t)| == db.tests[t].totalPairs
    ensures TestsOk(after)
  {
    forall u | u in after.tests ensures TestOk(after, u) {
      assert TestOk(db, u);
      if u != t {
        AddedOwned(db, after, t, u);
      } else {
        assert Owned(after, t) != {};
        assert forall p | p in Owned(after, t) :: p in db.pairs ==> p in Owned(db, t);
      }
    }
  }

  lemma AddedGames(db: Db, after: Db, t: int)
    requires GamesTableOk(db) && PairsAdded(db, after, t)
    ensures GamesTableOk(after)
  {
    forall p | p in after.pairs && after.pairs[p].status == Completed
      ensures after.pairs[p].leasedTo.Some? && PlayedBy(after, p, after.pairs[p].leasedTo.value)
    {
      assert p in db.pairs && PlayedBy(db, p, db.pairs[p].leasedTo.value);
    }
  }

  lemma AddedView(cfg: Config, db: Db, after: Db, t: int, u: int)
    requires GamesOk(db) && GamesOk(after) && PairsAdded(db, after, t)
    requires u in db.tests && u != t
    ensures SameView(cfg, db, after, u)
  {
    AddedOwned(db, after, t, u);
    assert SameScores(db, after, u);
    RecomputeFrame(cfg, db, after, u);
    forall p ensures IsLive(after, p, u) == IsLive(db, p, u) {
      assert p in after.pairs && p !in db.pairs ==> after.pairs[p].test == t;
    }
  }

  lemma NothingPlayed(db: Db, t: int)
    requires forall p | p in Owned(db, t) :: db.pairs[p].status == Pending
    ensures Total(PentaOf(db, t)) == 0
  {
    assert CountedPairs(db, t) <= Owned(db, t);
    assert CountedPairs(db, t) == {};
    PentaTotal(db, t);
  }

  lemma AddedKeep(cfg: Config, db: Db, after: Db, t: int)
    requires Inv(cfg, db) && PairsAdded(db, after, t) && HasStatus(db, t, Validating)
    requires PairsOk(after) && |Owned(after, t)| == db.tests[t].totalPairs
    ensures Almost(cfg, after, {t})
    ensures Total(PentaOf(after, t)) == 0
  {
    assert TestOk(db, t) && Synced(cfg, db, t);
    AddedTests(db, after, t);
    AddedGames(db, after, t);
    assert TestOk(after, t);
    NothingPlayed(after, t);
    assert forall u, s :: u != t ==> HasStatus(after, u, s) == HasStatus(db, u, s);
    forall u | u in after.tests && u != t
      ensures Synced(cfg, after, u)
      ensures HasStatus(db, u, Finished) ==> VerdictFits(cfg, after, u)
      ensures HasStatus(db, u, Running) ==> KeepsRunning(cfg, after, u)
    {
      AddedView(cfg, db, after, t, u);
      SameViewSynced(cfg, db, after, u);
      assert Synced(cfg, db, u);
      assert HasStatus(db, u, Running) ==> KeepsRunning(cfg, db, u);
      assert HasStatus(db, u, Finished) ==> VerdictFits(cfg, db, u);
    }
  }

  lemma RejectKeeps(cfg: Config, db: Db, t: int)
    requires Inv(cfg, db) && HasStatus(db, t, Validating)
    ensures Inv(cfg, SetStatus(db, t, Invalid))
  {
    assert TestOk(db, t);
    assert SetStatus(db, t, Invalid) == Change(db, t, Invalid, db.tests[t].result);
    ChangeKeeps(cfg, db, {}, t, Invalid, db.tests[t].result);
    StillRunning(db, SetStatus(db, t, Invalid), t);
  }

  lemma AdmitKeeps(cfg: Config, db: Db, t: int, orders: seq<real>)
    requires Inv(cfg, db) && HasStatus(db, t, Validating) && |orders| == db.tests[t].totalPairs
    ensures var queued := WithPairs(db, t, orders);
            Refresh(cfg, queued, t).Some? && Inv(cfg, Promote(Refresh(cfg, queued, t).value))
  {
    var queued := WithPairs(db, t, orders);
    WithPairsAdded(db, t, orders);
    assert TestOk(db, t);
    NewPairsOk(db, t, orders);
    NewPairsOwned(db, t, orders);
    AddedKeep(cfg, db, queued, t);
    QueueKeeps(cfg, queued, t);
  }

  lemma SmokeCommitKeeps(cfg: Config, db: Db, t: int, built: bool, orders: seq<real>)
    requires Inv(cfg, db) && (t in db.tests ==> |orders| <= db.tests[t].totalPairs)
    ensures Inv(cfg, SmokeCommit(cfg, db, t, built, orders))
  {
    if HasStatus(db, t, Validating) {
      if built && |orders| == db.tests[t].totalPairs {
        AdmitKeeps(cfg, db, t, orders);
        assert SmokeCommit(cfg, db, t, built, orders) == Promote(Refresh(cfg, WithPairs(db, t, orders), t).value);
      } else {
        RejectKeeps(cfg, db, t);
        assert SmokeCommit(cfg, db, t, built, orders) == SetStatus(db, t, Invalid);
      }
    }
  }

  lemma QueueKeeps(cfg: Config, db: Db, t: int)
    requires Almost(cfg, db, {t}) && t in db.tests && Total(PentaOf(db, t)) == 0
    ensures Refresh(cfg, db, t).Some? && Inv(cfg, Promote(Refresh(cfg, db, t).value))
  {
    assert {} + {t} == {t};
    RefreshKeeps(cfg, db, {}, t);
    PromoteKeeps(cfg, Refresh(cfg, db, t).value, {});
  }
}
