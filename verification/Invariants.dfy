/** What every transaction keeps. Inv is the invariant between transactions; Almost is what holds
    inside one, while the tests of a set ts still wait for their refresh. */
module Invariants {
  import opened Schema
  import opened Outcomes
  import opened Lifecycle
  import opened Queue
  import Sets

  ghost function Owned(db: Db, t: int): set<int> {
    set p | p in db.pairs && db.pairs[p].test == t
  }

  predicate RowOk(db: Db, row: Pair) {
    && row.test in db.tests
    && (row.status == Pending ==> row.leasedTo.None?)
    && (row.status == Leased ==> row.leaseExpiresAt.Some?)
    && (row.status != Pending ==> row.leasedTo.Some? && row.leasedTo.value in db.clients)
  }

  /** UNIQUE (name) */
  ghost predicate NamesUnique(clients: map<int, Client>) {
    forall c, d | c in clients && d in clients :: clients[c].name == clients[d].name ==> c == d
  }

  ghost predicate PairsOk(db: Db) {
    && (forall p | p in db.pairs :: p < db.nextPair && RowOk(db, db.pairs[p]))
    && (forall p, q | p in db.pairs && q in db.pairs && db.pairs[p].test == db.pairs[q].test ::
          db.pairs[p].position == db.pairs[q].position ==> p == q)
    && (forall c | c in db.clients :: c < db.nextClient)
    && NamesUnique(db.clients)
  }

  predicate HasPairsStatus(s: TestStatus) { s == Queued || s == Running || s == Finished }

  ghost predicate TestOk(db: Db, t: int)
    requires t in db.tests
  {
    var test := db.tests[t];
    && t < db.nextTest && test.totalPairs > 0
    && (Owned(db, t) == {} || |Owned(db, t)| == test.totalPairs)
    && (HasPairsStatus(test.status) ==> Owned(db, t) != {})
    && (test.status == Validating || test.status == Invalid ==> Owned(db, t) == {})
    && (test.status == Queued ==> forall p | p in Owned(db, t) :: db.pairs[p].status == Pending)
    && (test.result == NoVerdict <==> test.status != Finished)
    && (t in db.stats <==> t in db.history)
  }

  ghost predicate TestsOk(db: Db) {
    && (forall t | t in db.tests :: TestOk(db, t))
    && db.stats.Keys <= db.tests.Keys && db.history.Keys <= db.tests.Keys
  }

  /** Games 0 and 1 of pair p are both there, reported by the client that held it, with the
      verdicts of check_pair. */
  ghost predicate PlayedBy(db: Db, p: int, client: int)
    requires p in db.pairs
  {
    && GameKey(p, 0) in db.games && GameKey(p, 1) in db.games
    && var report := PairReport(client, [db.games[GameKey(p, 0)].report, db.games[GameKey(p, 1)].report]);
       && db.games[GameKey(p, 0)] == GameRow(db.pairs[p].test, report, 0)
       && db.games[GameKey(p, 1)] == GameRow(db.pairs[p].test, report, 1)
  }

  ghost predicate GamesTableOk(db: Db) {
    && GamesOk(db)
    && (forall key | key in db.games :: db.pairs[key.pair].status == Completed)
    && (forall p | p in db.pairs && db.pairs[p].status == Completed ::
          db.pairs[p].leasedTo.Some? && PlayedBy(db, p, db.pairs[p].leasedTo.value))
  }

  ghost predicate Shape(db: Db) {
    PairsOk(db) && TestsOk(db) && GamesTableOk(db)
  }

  ghost predicate Counts(h: seq<HistoryPoint>) {
    forall i | 0 <= i < |h| :: h[i].pairsValid == i
  }

  /** test_stats holds the from-scratch recomputation, and the history one point for each number
      of valid pairs so far, the last one with the present LLR. */
  ghost predicate Synced(cfg: Config, db: Db, t: int)
    requires t in db.tests
  {
    if Owned(db, t) == {} then t !in db.stats && t !in db.history
    else
      && t in db.stats && t in db.history
      && Recompute(cfg, db, t) == Some(db.stats[t])
      && Counts(db.history[t])
      && |db.history[t]| == Total(PentaOf(db, t)) + 1
      && db.history[t][|db.history[t]| - 1].llr == db.stats[t].llr
  }

  /** The same before the refresh: the table may lack the test, or one pair. */
  ghost predicate Lagging(cfg: Config, db: Db, t: int)
    requires t in db.tests
  {
    || Synced(cfg, db, t)
    || (t !in db.stats && t !in db.history && Total(PentaOf(db, t)) == 0)
    || (t in db.stats && t in db.history && Counts(db.history[t]) && |db.history[t]| == Total(PentaOf(db, t))
        && db.history[t] != [])
  }

  ghost predicate StatsOk(cfg: Config, db: Db, ts: set<int>) {
    forall t | t in db.tests :: if t in ts then Lagging(cfg, db, t) && Owned(db, t) != {} else Synced(cfg, db, t)
  }

  ghost predicate OneRunning(db: Db) {
    forall t, u | HasStatus(db, t, Running) && HasStatus(db, u, Running) :: t == u
  }

  ghost predicate KeepsRunning(cfg: Config, db: Db, t: int)
    requires t in db.tests
  {
    HasLivePair(db, t) && t in db.stats && Decide(cfg, db.tests[t].kind, db.stats[t]) == Continue
  }

  ghost predicate RunningOk(cfg: Config, db: Db, ts: set<int>) {
    forall t | HasStatus(db, t, Running) && t !in ts :: KeepsRunning(cfg, db, t)
  }

  /** A finished test's result is the one its statistics call for. */
  ghost predicate VerdictFits(cfg: Config, db: Db, t: int)
    requires t in db.tests
  {
    var test := db.tests[t];
    && Recompute(cfg, db, t).Some?
    && match Decide(cfg, test.kind, Recompute(cfg, db, t).value)
       case AcceptH1 => test.result == Accepted
       case AcceptH0 => test.result == Rejected
       case Continue => !HasLivePair(db, t) && test.result == if test.kind.Sprt? then Inconclusive else AllPlayed
  }

  ghost predicate VerdictsOk(cfg: Config, db: Db) {
    forall t | HasStatus(db, t, Finished) :: VerdictFits(cfg, db, t)
  }

  ghost predicate Almost(cfg: Config, db: Db, ts: set<int>) {
    Shape(db) && StatsOk(cfg, db, ts) && OneRunning(db) && RunningOk(cfg, db, ts) && VerdictsOk(cfg, db)
  }

  /** No test waits while none runs. */
  ghost predicate NoIdling(db: Db) {
    SomeTestIs(db, Queued) ==> SomeTestIs(db, Running)
  }

  ghost predicate Inv(cfg: Config, db: Db) {
    Almost(cfg, db, {}) && NoIdling(db)
  }

  // ---------------------------------------------------------------------------
  // Frames: when the statistics of a test do not change
  // ---------------------------------------------------------------------------

  /** Test t has the same counted pairs, with the same games, in both databases. */
  ghost predicate SameScores(db: Db, after: Db, t: int) {
    && Owned(db, t) == Owned(after, t)
    && (forall p | p in Owned(db, t) :: PairScore(db, p) == PairScore(after, p))
    && (forall p | p in Owned(db, t) && PairScore(db, p).Some? ::
          Row(db, p, 0) == Row(after, p, 0) && Row(db, p, 1) == Row(after, p, 1))
  }

  lemma PentaFrame(db: Db, after: Db, t: int)
    requires SameScores(db, after, t)
    ensures CountedPairs(db, t) == CountedPairs(after, t)
    ensures PentaOf(db, t) == PentaOf(after, t)
  {
    assert CountedPairs(db, t) == CountedPairs(after, t) by {
      forall p | p in CountedPairs(db, t) ensures p in CountedPairs(after, t) { assert p in Owned(db, t); }
      forall p | p in CountedPairs(after, t) ensures p in CountedPairs(db, t) { assert p in Owned(after, t); }
    }
    forall k: nat | k < 5
      ensures InCategory(db, CountedPairs(db, t), k) == InCategory(after, CountedPairs(after, t), k)
    {
      forall p | p in CountedPairs(db, t) ensures Category(db, p) == Category(after, p) { assert p in Owned(db, t); }
    }
  }

  lemma ScoreFrame(db: Db, after: Db, t: int, o: Outcome)
    requires SameScores(db, after, t) && GamesOk(db) && GamesOk(after)
    ensures ScoredGames(db, t, o) == ScoredGames(after, t, o)
  {
    forall key | key in ScoredGames(db, t, o) ensures key in ScoredGames(after, t, o) {
      assert key.pair in Owned(db, t) && (key == GameKey(key.pair, 0) || key == GameKey(key.pair, 1));
    }
    forall key | key in ScoredGames(after, t, o) ensures key in ScoredGames(db, t, o) {
      assert key.pair in Owned(after, t) && (key == GameKey(key.pair, 0) || key == GameKey(key.pair, 1));
    }
  }

  lemma RecomputeFrame(cfg: Config, db: Db, after: Db, t: int)
    requires t in db.tests && t in after.tests && db.tests[t].kind == after.tests[t].kind
    requires SameScores(db, after, t) && GamesOk(db) && GamesOk(after)
    ensures Recompute(cfg, db, t) == Recompute(cfg, after, t)
    ensures PentaOf(db, t) == PentaOf(after, t)
  {
    PentaFrame(db, after, t);
    ScoreFrame(db, after, t, CandidateWin);
    ScoreFrame(db, after, t, Draw);
    ScoreFrame(db, after, t, CandidateLoss);
  }

  // ---------------------------------------------------------------------------
  // Changing only the tests table
  // ---------------------------------------------------------------------------

  /** Only the tests table differs, and in it neither kinds nor sizes. */
  ghost predicate OnlyTestsChange(db: Db, after: Db) {
    && after == db.(tests := after.tests)
    && after.tests.Keys == db.tests.Keys
    && forall t | t in db.tests :: after.tests[t].kind == db.tests[t].kind && after.tests[t].totalPairs == db.tests[t].totalPairs
  }

  /** Nothing the invariant reads about test t's pairs and statistics differs. */
  ghost predicate SameView(cfg: Config, db: Db, after: Db, t: int) {
    && t in db.tests && t in after.tests
    && Recompute(cfg, after, t) == Recompute(cfg, db, t)
    && PentaOf(after, t) == PentaOf(db, t)
    && Owned(after, t) == Owned(db, t)
    && HasLivePair(after, t) == HasLivePair(db, t)
    && (forall p | p in Owned(db, t) :: after.pairs[p].status == db.pairs[p].status)
  }

  lemma SamePairsSameView(cfg: Config, db: Db, after: Db, t: int)
    requires t in db.tests && t in after.tests && db.tests[t].kind == after.tests[t].kind
    requires after.pairs == db.pairs && after.games == db.games && GamesOk(db)
    ensures SameView(cfg, db, after, t)
  {
    assert Owned(after, t) == Owned(db, t);
    RecomputeFrame(cfg, db, after, t);
    assert forall p :: IsLive(after, p, t) == IsLive(db, p, t);
  }

  lemma SameViewSynced(cfg: Config, db: Db, after: Db, t: int)
    requires SameView(cfg, db, after, t)
    requires t in db.stats <==> t in after.stats
    requires t in db.history <==> t in after.history
    requires t in db.stats ==> after.stats[t] == db.stats[t]
    requires t in db.history ==> after.history[t] == db.history[t]
    ensures Synced(cfg, after, t) == Synced(cfg, db, t)
    ensures Lagging(cfg, after, t) == Lagging(cfg, db, t)
  {
  }

  lemma SamePairsTables(db: Db, after: Db)
    requires after.pairs == db.pairs && after.games == db.games && after.clients == db.clients
    requires after.nextPair == db.nextPair && after.nextClient == db.nextClient
    requires after.tests.Keys == db.tests.Keys
    requires PairsOk(db) && GamesTableOk(db)
    ensures PairsOk(after) && GamesTableOk(after)
  {
    forall p | p in after.pairs && after.pairs[p].status == Completed
      ensures PlayedBy(after, p, after.pairs[p].leasedTo.value)
    {
      assert PlayedBy(db, p, db.pairs[p].leasedTo.value);
    }
  }

  // ---------------------------------------------------------------------------
  // Status changes, promotion, the end of a test
  // ---------------------------------------------------------------------------

  /** How one transaction may change a test that waits, runs or has ended. */
  predicate StatusStep(a: Test, b: Test) {
    || b == a
    || (a.status == Queued && b == a.(status := Running))
    || (a.status == Running && b == a.(status := Finished, result := b.result) && b.result != NoVerdict)
  }

  ghost predicate Steps(db: Db, after: Db) {
    && after.tests.Keys == db.tests.Keys
    && forall u | u in db.tests :: StatusStep(db.tests[u], after.tests[u])
  }

  function Change(db: Db, t: int, s: TestStatus, r: TestResult): Db
    requires t in db.tests
  {
    db.(tests := db.tests[t := db.tests[t].(status := s, result := r)])
  }

  /** What test t must satisfy to take on status s and result r. */
  ghost predicate MayBecome(cfg: Config, db: Db, ts: set<int>, t: int, s: TestStatus, r: TestResult)
    requires t in db.tests
  {
    && (HasPairsStatus(s) ==> Owned(db, t) != {})
    && (s == Validating || s == Invalid ==> Owned(db, t) == {})
    && (s == Queued ==> forall p | p in Owned(db, t) :: db.pairs[p].status == Pending)
    && (r == NoVerdict <==> s != Finished)
    && (s == Running ==> (forall u | HasStatus(db, u, Running) :: u == t) && (t in ts || KeepsRunning(cfg, db, t)))
    && (s == Finished ==> VerdictFits(cfg, Change(db, t, s, r), t))
  }

  lemma ChangeKeepsShape(cfg: Config, db: Db, ts: set<int>, t: int, s: TestStatus, r: TestResult)
    requires Shape(db) && t in db.tests && MayBecome(cfg, db, ts, t, s, r)
    ensures Shape(Change(db, t, s, r))
  {
    var after := Change(db, t, s, r);
    SamePairsTables(db, after);
    forall u | u in after.tests ensures TestOk(after, u) {
      assert TestOk(db, u) && Owned(after, u) == Owned(db, u);
    }
  }

  lemma ChangeKeepsRunning(cfg: Config, db: Db, ts: set<int>, t: int, s: TestStatus, r: TestResult)
    requires GamesOk(db) && t in db.tests && MayBecome(cfg, db, ts, t, s, r)
    requires OneRunning(db) && RunningOk(cfg, db, ts + {t})
    ensures OneRunning(Change(db, t, s, r)) && RunningOk(cfg, Change(db, t, s, r), ts)
  {
    var after := Change(db, t, s, r);
    assert forall u :: HasStatus(after, u, Running) ==> (u == t && s == Running) || (u != t && HasStatus(db, u, Running));
    forall u | HasStatus(after, u, Running) && u !in ts ensures KeepsRunning(cfg, after, u) {
      SamePairsSameView(cfg, db, after, u);
      assert KeepsRunning(cfg, db, u);
    }
  }

  lemma ChangeKeepsVerdicts(cfg: Config, db: Db, ts: set<int>, t: int, s: TestStatus, r: TestResult)
    requires GamesOk(db) && t in db.tests && MayBecome(cfg, db, ts, t, s, r)
    requires VerdictsOk(cfg, db)
    ensures VerdictsOk(cfg, Change(db, t, s, r))
  {
    var after := Change(db, t, s, r);
    forall u | HasStatus(after, u, Finished) ensures VerdictFits(cfg, after, u) {
      if u != t {
        SamePairsSameView(cfg, db, after, u);
        assert HasStatus(db, u, Finished) && VerdictFits(cfg, db, u);
      }
    }
  }

  /** One test changes its status; a running test may do so before its refresh is over. */
  lemma ChangeKeeps(cfg: Config, db: Db, ts: set<int>, t: int, s: TestStatus, r: TestResult)
    requires t in db.tests && MayBecome(cfg, db, ts, t, s, r)
    requires Shape(db) && StatsOk(cfg, db, ts) && OneRunning(db) && RunningOk(cfg, db, ts + {t}) && VerdictsOk(cfg, db)
    ensures Almost(cfg, Change(db, t, s, r), ts)
    ensures OnlyTestsChange(db, Change(db, t, s, r))
  {
    var after := Change(db, t, s, r);
    ChangeKeepsShape(cfg, db, ts, t, s, r);
    ChangeKeepsRunning(cfg, db, ts, t, s, r);
    ChangeKeepsVerdicts(cfg, db, ts, t, s, r);
    forall u | u in after.tests
      ensures if u in ts then Lagging(cfg, after, u) && Owned(after, u) != {} else Synced(cfg, after, u)
    {
      SamePairsSameView(cfg, db, after, u);
      SameViewSynced(cfg, db, after, u);
    }
  }

  lemma QueuedTestContinues(cfg: Config, db: Db, t: int)
    requires Shape(db) && HasStatus(db, t, Queued)
    ensures Total(PentaOf(db, t)) == 0 && HasLivePair(db, t)
    ensures Recompute(cfg, db, t).Some? && Decide(cfg, db.tests[t].kind, Recompute(cfg, db, t).value) == Continue
  {
    assert TestOk(db, t);
    assert CountedPairs(db, t) <= Owned(db, t);
    assert CountedPairs(db, t) == {};
    PentaTotal(db, t);
    var p := Sets.Pick(Owned(db, t));
    assert IsLive(db, p, t);
  }

  lemma StartKeeps(cfg: Config, db: Db, ts: set<int>, t: int)
    requires Almost(cfg, db, ts) && t !in ts && HasStatus(db, t, Queued) && !SomeTestIs(db, Running)
    ensures Almost(cfg, SetStatus(db, t, Running), ts)
  {
    assert TestOk(db, t) && Synced(cfg, db, t);
    QueuedTestContinues(cfg, db, t);
    assert KeepsRunning(cfg, db, t);
    assert forall u :: !HasStatus(db, u, Running);
    assert SetStatus(db, t, Running) == Change(db, t, Running, db.tests[t].result);
    ChangeKeeps(cfg, db, ts, t, Running, db.tests[t].result);
  }

  lemma PromoteKeeps(cfg: Config, db: Db, ts: set<int>)
    requires Almost(cfg, db, ts)
    requires forall t | t in ts :: !HasStatus(db, t, Queued)
    ensures Almost(cfg, Promote(db), ts) && NoIdling(Promote(db))
  {
    var t := PromoteEffect(db);
    if !SomeTestIs(db, Running) && SomeTestIs(db, Queued) {
      StartKeeps(cfg, db, ts, t);
      assert HasStatus(Promote(db), t, Running);
    }
  }

  lemma IdlingFrame(db: Db, after: Db)
    requires NoIdling(db)
    requires forall t :: HasStatus(after, t, Queued) ==> HasStatus(db, t, Queued)
    requires forall t :: HasStatus(db, t, Running) ==> HasStatus(after, t, Running)
    ensures NoIdling(after)
  {
    if SomeTestIs(after, Queued) {
      var q :| HasStatus(after, q, Queued);
      assert HasStatus(db, q, Queued);
      var r :| HasStatus(db, r, Running);
      assert HasStatus(after, r, Running);
    }
  }

  lemma PromoteSteps(db: Db)
    ensures OnlyTestsChange(db, Promote(db)) && Steps(db, Promote(db))
    ensures forall t | t in db.tests && db.tests[t].status != Queued :: Promote(db).tests[t] == db.tests[t]
  {
    var t := PromoteEffect(db);
  }

  /** result is the verdict refresh_test reaches for running test t. */
  ghost predicate Due(cfg: Config, db: Db, t: int, result: TestResult)
    requires t in db.tests && t in db.stats
  {
    match Decide(cfg, db.tests[t].kind, db.stats[t])
    case AcceptH1 => result == Accepted
    case AcceptH0 => result == Rejected
    case Continue => !HasLivePair(db, t) && result == if db.tests[t].kind.Sprt? then Inconclusive else AllPlayed
  }

  lemma EndVerdict(cfg: Config, db: Db, t: int, result: TestResult)
    requires GamesOk(db) && t in db.tests && Synced(cfg, db, t) && Owned(db, t) != {} && Due(cfg, db, t, result)
    ensures VerdictFits(cfg, Change(db, t, Finished, result), t)
  {
    SamePairsSameView(cfg, db, Change(db, t, Finished, result), t);
  }

  lemma EndKeeps(cfg: Config, db: Db, ts: set<int>, t: int, result: TestResult)
    requires Almost(cfg, db, ts + {t}) && HasStatus(db, t, Running) && Synced(cfg, db, t)
    requires t !in ts && Owned(db, t) != {} && Due(cfg, db, t, result)
    ensures Almost(cfg, Change(db, t, Finished, result), ts)
  {
    EndVerdict(cfg, db, t, result);
    assert result != NoVerdict;
    assert StatsOk(cfg, db, ts) by {
      forall u | u in db.tests && u !in ts ensures Synced(cfg, db, u) {
      }
    }
    ChangeKeeps(cfg, db, ts, t, Finished, result);
  }

  lemma FinishKeeps(cfg: Config, db: Db, ts: set<int>, t: int, result: TestResult)
    requires Almost(cfg, db, ts + {t}) && HasStatus(db, t, Running) && Synced(cfg, db, t)
    requires forall u | u in ts :: !HasStatus(db, u, Queued)
    requires t !in ts && Owned(db, t) != {} && Due(cfg, db, t, result)
    ensures Almost(cfg, Finish(db, t, result), ts) && NoIdling(Finish(db, t, result))
  {
    EndKeeps(cfg, db, ts, t, result);
    PromoteKeeps(cfg, Change(db, t, Finished, result), ts);
  }

  // ---------------------------------------------------------------------------
  // refresh_test
  // ---------------------------------------------------------------------------

  lemma RecordKeepsShape(db: Db, t: int, st: Stats)
    requires Shape(db) && t in db.tests
    ensures Shape(Record(db, t, st))
  {
    var after := Record(db, t, st);
    SamePairsTables(db, after);
    forall u | u in after.tests ensures TestOk(after, u) {
      assert TestOk(db, u) && Owned(after, u) == Owned(db, u);
    }
  }

  lemma RecordKeeps(cfg: Config, db: Db, ts: set<int>, t: int, st: Stats)
    requires Almost(cfg, db, ts) && t in ts
    requires t in db.tests && Recompute(cfg, db, t) == Some(st)
    ensures var after := Record(db, t, st);
            Almost(cfg, after, ts) && Synced(cfg, after, t) && after.stats[t] == st && Owned(after, t) != {}
  {
    var after := Record(db, t, st);
    RecordKeepsShape(db, t, st);
    RecordSyncs(cfg, db, t, st);
    assert Owned(after, t) == Owned(db, t);
    forall u | u in after.tests
      ensures if u in ts then Lagging(cfg, after, u) && Owned(after, u) != {} else Synced(cfg, after, u)
    {
      if u != t {
        SamePairsSameView(cfg, db, after, u);
        SameViewSynced(cfg, db, after, u);
      }
    }
    assert forall u, s :: HasStatus(after, u, s) == HasStatus(db, u, s);
    forall u | HasStatus(after, u, Running) && u !in ts ensures KeepsRunning(cfg, after, u) {
      SamePairsSameView(cfg, db, after, u);
      assert KeepsRunning(cfg, db, u);
    }
    forall u | HasStatus(after, u, Finished) ensures VerdictFits(cfg, after, u) {
      SamePairsSameView(cfg, db, after, u);
      assert VerdictFits(cfg, db, u);
    }
  }

  lemma RecordSyncs(cfg: Config, db: Db, t: int, st: Stats)
    requires Shape(db) && t in db.tests && Owned(db, t) != {}
    requires Lagging(cfg, db, t) && Recompute(cfg, db, t) == Some(st)
    ensures Synced(cfg, Record(db, t, st), t)
  {
    var after := Record(db, t, st);
    SamePairsSameView(cfg, db, after, t);
    assert st.penta == PentaOf(db, t);
    assert after.stats[t] == st;
  }

  lemma SettleKeeps(cfg: Config, mid: Db, ts: set<int>, t: int)
    requires Almost(cfg, mid, ts + {t}) && t !in ts && t in mid.tests
    requires Synced(cfg, mid, t) && Owned(mid, t) != {}
    requires forall u | u in ts :: !HasStatus(mid, u, Queued)
    ensures Almost(cfg, Settle(cfg, mid, t, mid.stats[t]), ts)
    ensures NoIdling(mid) ==> NoIdling(Settle(cfg, mid, t, mid.stats[t]))
  {
    var kind := mid.tests[t].kind;
    if HasStatus(mid, t, Running) {
      match Decide(cfg, kind, mid.stats[t])
      case AcceptH1 => FinishKeeps(cfg, mid, ts, t, Accepted);
      case AcceptH0 => FinishKeeps(cfg, mid, ts, t, Rejected);
      case Continue =>
        if !HasLivePair(mid, t) {
          FinishKeeps(cfg, mid, ts, t, if kind.Sprt? then Inconclusive else AllPlayed);
        }
    }
  }

  lemma SettleSteps(cfg: Config, mid: Db, t: int, st: Stats)
    requires t in mid.tests
    ensures OnlyTestsChange(mid, Settle(cfg, mid, t, st)) && Steps(mid, Settle(cfg, mid, t, st))
  {
    PromoteSteps(Change(mid, t, Finished, Accepted));
    PromoteSteps(Change(mid, t, Finished, Rejected));
    PromoteSteps(Change(mid, t, Finished, Inconclusive));
    PromoteSteps(Change(mid, t, Finished, AllPlayed));
  }

  /** After its refresh a test no longer waits; the other waiting tests still do. */
  lemma RefreshKeeps(cfg: Config, db: Db, others: set<int>, t: int)
    requires Almost(cfg, db, others + {t}) && t !in others && t in db.tests
    requires forall u | u in others :: !HasStatus(db, u, Queued)
    requires Refresh(cfg, db, t).Some?
    ensures Almost(cfg, Refresh(cfg, db, t).value, others)
    ensures NoIdling(db) ==> NoIdling(Refresh(cfg, db, t).value)
  {
    var st := Recompute(cfg, db, t).value;
    var mid := Record(db, t, st);
    RecordKeeps(cfg, db, others + {t}, t, st);
    if NoIdling(db) {
      IdlingFrame(db, mid);
    }
    assert forall u | u in others :: !HasStatus(mid, u, Queued);
    SettleKeeps(cfg, mid, others, t);
    assert Refresh(cfg, db, t).value == Settle(cfg, mid, t, mid.stats[t]);
  }

  /** A refresh of test t writes t's statistics and history, and otherwise only takes status steps. */
  ghost predicate Refreshed(cfg: Config, db: Db, after: Db, t: int) {
    && t in db.tests && Recompute(cfg, db, t).Some?
    && OnlyTestsChange(Record(db, t, Recompute(cfg, db, t).value), after)
    && Steps(db, after)
  }

  lemma RefreshSteps(cfg: Config, db: Db, t: int)
    requires t in db.tests && Refresh(cfg, db, t).Some?
    ensures Refreshed(cfg, db, Refresh(cfg, db, t).value, t)
  {
    var st := Recompute(cfg, db, t).value;
    SettleSteps(cfg, Record(db, t, st), t, st);
  }
}
