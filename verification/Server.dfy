/** The server's transactions as it runs them: statements that change rows of tables in place, with
    loops over rows, and a rollback when a computation throws. Each is proved to be its function in
    Queue, and to keep the invariant. */
module Server {
  import opened Schema
  import opened Outcomes
  import opened Sanity
  import opened Lifecycle
  import opened Queue
  import opened Invariants
  import opened Keeps
  import opened Runs
  import opened Claims
  import Sets

  datatype ClaimStatus = ClaimOk | ClaimUnknownClient | ClaimBanned | NoActiveTest

  datatype StopStatus = StopNotFound | AlreadyTerminal | StoppedNow

  datatype PriorityStatus = PriorityNotFound | NotQueued | PriorityUpdated

  class Server {
    const cfg: Config
    var now: real
    var tests: map<int, Test>
    var clients: map<int, Client>
    var pairs: map<int, Pair>
    var games: map<GameKey, Game>
    var stats: map<int, Stats>
    var history: map<int, seq<HistoryPoint>>
    var nextTest: int
    var nextClient: int
    var nextPair: int

    function Snap(): Db
      reads this
    {
      Db(now, tests, clients, pairs, games, stats, history, nextTest, nextClient, nextPair)
    }

    ghost predicate Valid()
      reads this
    {
      Inv(cfg, Snap())
    }

    constructor (cfg: Config)
      ensures Valid() && Snap() == EMPTY_DB && this.cfg == cfg
    {
      this.cfg := cfg;
      now := 0.0;
      tests, clients, pairs, games := map[], map[], map[], map[];
      stats, history := map[], map[];
      nextTest, nextClient, nextPair := 1, 1, 1;
      new;
      EmptyInv(cfg);
    }

    // -------------------------------------------------------------------------
    // server/test_lifecycle.cpp
    // -------------------------------------------------------------------------

    /** The rows of the view for test t, each with its category. */
    method ViewRows(t: int) returns (rows: map<int, nat>)
      ensures forall k: nat :: RowsIn(rows, k) == InCategory(Snap(), CountedPairs(Snap(), t), k)
      ensures forall p | p in rows :: rows[p] < 5
    {
      var db := Snap();
      forall p | PairScore(db, p).Some? ensures Category(db, p).Some? && Category(db, p).value < 5 {
        ViewScoreHasCategory(db, p);
      }
      rows := map p | p in pairs && pairs[p].test == t && PairScore(db, p).Some? :: Category(db, p).value;
    }

    static ghost function RowsIn(rows: map<int, nat>, k: nat): set<int> {
      set p | p in rows && rows[p] == k
    }

    /** The accumulation loop of refresh_test. */
    static method Tally(rows: map<int, nat>) returns (counts: seq<nat>)
      requires forall p | p in rows :: rows[p] < 5
      ensures |counts| == 5 && forall k: nat | k < 5 :: counts[k] == |RowsIn(rows, k)|
    {
      counts := [0, 0, 0, 0, 0];
      var rest := rows.Keys;
      forall k: nat ensures |RowsIn(rows, k) - rest| == 0 {
        Sets.NothingDone(RowsIn(rows, k), rest);
      }
      while rest != {}
        invariant rest <= rows.Keys && |counts| == 5
        invariant forall k: nat | k < 5 :: counts[k] == |RowsIn(rows, k) - rest|
        decreases |rest|
      {
        var p := Sets.Choose(rest);
        forall k: nat ensures |RowsIn(rows, k) - (rest - {p})| == |RowsIn(rows, k) - rest| + Indicator(rows[p] == k) {
          Sets.DropOne(RowsIn(rows, k), rest, p);
        }
        counts := counts[rows[p] := counts[rows[p]] + 1];
        rest := rest - {p};
      }
      forall k: nat ensures |RowsIn(rows, k) - rest| == |RowsIn(rows, k)| {
        Sets.AllDone(RowsIn(rows, k));
      }
    }

    method Pentanomial(t: int) returns (counts: seq<nat>)
      ensures counts == PentaOf(Snap(), t)
    {
      var rows := ViewRows(t);
      counts := Tally(rows);
    }

    /** count(*) FILTER (WHERE outcome = o) of the score query. */
    method CountGames(t: int, o: Outcome) returns (n: nat)
      ensures n == |ScoredGames(Snap(), t, o)|
    {
      var db := Snap();
      n := 0;
      var rest := games.Keys;
      ghost var wanted: set<GameKey> := ScoredGames(db, t, o);
      Sets.NothingDone(wanted, rest);
      while rest != {}
        invariant rest <= games.Keys
        invariant n == |wanted - rest|
        decreases |rest|
      {
        var key := Sets.Choose(rest);
        if games[key].test == t && games[key].valid && PairScore(db, key.pair).Some? && games[key].report.outcome == o {
          n := n + 1;
        }
        Sets.DropOne(wanted, rest, key);
        rest := rest - {key};
      }
      Sets.AllDone(wanted);
    }

    method FindTest(s: TestStatus) returns (found: Option<int>)
      ensures found.Some? ==> HasStatus(Snap(), found.value, s)
      ensures found.None? ==> !SomeTestIs(Snap(), s)
    {
      var rest := tests.Keys;
      found := None;
      while rest != {} && found.None?
        invariant rest <= tests.Keys
        invariant found.None? ==> forall t | t in tests.Keys - rest :: tests[t].status != s
        invariant found.Some? ==> HasStatus(Snap(), found.value, s)
        decreases |rest|
      {
        var t := Sets.Choose(rest);
        if tests[t].status == s {
          found := Some(t);
        }
        rest := rest - {t};
      }
    }

    /** ORDER BY priority DESC, created_at, id */
    predicate Precedes(t: int, u: int)
      requires t in tests && u in tests
      reads `tests
    {
      if tests[t].priority != tests[u].priority then tests[t].priority > tests[u].priority
      else if tests[t].createdAt != tests[u].createdAt then tests[t].createdAt < tests[u].createdAt
      else t < u
    }

    /** The query of promote_next_test: the first queued test by priority, age and id. */
    method NextQueued() returns (next: Option<int>)
      ensures next.Some? ==> IsNext(Snap(), next.value) && NoneBefore(Snap(), next.value)
      ensures next.None? ==> !SomeTestIs(Snap(), Queued)
    {
      var db := Snap();
      next := None;
      var rest := tests.Keys;
      while rest != {}
        invariant rest <= tests.Keys
        invariant next.Some? ==> HasStatus(db, next.value, Queued)
        invariant next.Some? ==> forall u | u in tests.Keys - rest && u != next.value :: tests[u].status == Queued ==> Before(db, next.value, u)
        invariant next.None? ==> forall u | u in tests.Keys - rest :: tests[u].status != Queued
        decreases |rest|
      {
        var t := Sets.Choose(rest);
        if tests[t].status == Queued && (next.None? || Precedes(t, next.value)) {
          next := Some(t);
        }
        rest := rest - {t};
      }
      if next.Some? {
        NextIff(db, next.value);
      }
    }

    method PromoteNextTest() returns (promoted: Option<int>)
      modifies `tests
      ensures Snap() == Promote(old(Snap()))
      ensures promoted.Some? ==> HasStatus(old(Snap()), promoted.value, Queued) && HasStatus(Snap(), promoted.value, Running)
      ensures promoted.Some? ==> NoneBefore(old(Snap()), promoted.value)
      ensures promoted.Some? <==> !SomeTestIs(old(Snap()), Running) && SomeTestIs(old(Snap()), Queued)
      ensures promoted.None? ==> Snap() == old(Snap())
    {
      promoted := None;
      ghost var db := Snap();
      ghost var first := PromoteEffect(db);
      var busy := FindTest(Running);
      if busy.None? {
        promoted := NextQueued();
        if promoted.Some? {
          assert HasStatus(db, promoted.value, Queued);
          NextIsUnique(db, promoted.value, first);
          tests := tests[promoted.value := tests[promoted.value].(status := Running)];
        }
      }
    }

    method FinishTest(t: int, result: TestResult)
      requires t in tests
      modifies `tests
      ensures Snap() == Finish(old(Snap()), t, result)
    {
      tests := tests[t := tests[t].(status := Finished, result := result)];
      var promoted := PromoteNextTest();
    }

    method HasWork(t: int) returns (some: bool)
      ensures some <==> HasLivePair(Snap(), t)
    {
      var rest := pairs.Keys;
      some := false;
      while rest != {} && !some
        invariant rest <= pairs.Keys
        invariant forall p | p in pairs.Keys - rest :: pairs[p].test == t && LiveStatus(pairs[p].status) ==> some
        invariant some ==> HasLivePair(Snap(), t)
        decreases |rest|
      {
        var p := Sets.Choose(rest);
        if pairs[p].test == t && LiveStatus(pairs[p].status) {
          assert IsLive(Snap(), p, t);
          some := true;
        }
        rest := rest - {p};
      }
    }

    /** The two queries and the LLR of refresh_test. */
    method ComputeStats(t: int) returns (st: Option<Stats>)
      requires t in tests
      ensures st == Recompute(cfg, Snap(), t)
    {
      var penta := Pentanomial(t);
      var wins := CountGames(t, CandidateWin);
      var draws := CountGames(t, Draw);
      var losses := CountGames(t, CandidateLoss);
      st := StatsFrom(cfg, tests[t].kind, penta, wins, draws, losses);
    }

    /** refresh_test; false when the LLR computation throws, before anything is written. */
    method RefreshTest(t: int) returns (ok: bool)
      modifies `tests, `stats, `history
      ensures ok ==> Refresh(cfg, old(Snap()), t) == Some(Snap())
      ensures !ok ==> Refresh(cfg, old(Snap()), t) == None && Snap() == old(Snap())
    {
      if t !in tests {
        return true;
      }
      var kind, status := tests[t].kind, tests[t].status;
      var computed := ComputeStats(t);
      if computed.None? {
        return false;
      }
      var st := computed.value;
      ghost var db := Snap();
      history := history[t := AppendPoint(HistoryOf(Snap(), t), Total(st.penta), st.llr)];
      stats := stats[t := st];
      assert Snap() == Record(db, t, st);
      ok := true;
      if status == Running {
        match Decide(cfg, kind, st)
        case AcceptH1 => FinishTest(t, Accepted);
        case AcceptH0 => FinishTest(t, Rejected);
        case Continue =>
          var more := HasWork(t);
          if !more {
            FinishTest(t, if kind.Sprt? then Inconclusive else AllPlayed);
          }
      }
    }

    // -------------------------------------------------------------------------
    // server/queue.cpp
    // -------------------------------------------------------------------------

    /** The row of rest with the least dispatch order. */
    method FirstInOrder(rest: set<int>) returns (first: int)
      requires rest != {} && rest <= pairs.Keys
      ensures first in rest && forall q | q in rest :: pairs[first].dispatchOrder <= pairs[q].dispatchOrder
    {
      first := Sets.Choose(rest);
      var todo := rest - {first};
      while todo != {}
        invariant todo <= rest && first in rest
        invariant forall q | q in rest - todo :: pairs[first].dispatchOrder <= pairs[q].dispatchOrder
        decreases |todo|
      {
        var p := Sets.Choose(todo);
        if pairs[p].dispatchOrder < pairs[first].dispatchOrder {
          first := p;
        }
        todo := todo - {p};
      }
    }

    /** ORDER BY dispatch_order LIMIT limit FOR UPDATE SKIP LOCKED */
    method PickPending(t: int, limit: nat, locked: set<int>) returns (picked: set<int>)
      ensures picked <= Available(Snap(), t, locked)
      ensures |picked| == if limit < |Available(Snap(), t, locked)| then limit else |Available(Snap(), t, locked)|
      ensures forall p, q | p in picked && q in Available(Snap(), t, locked) && q !in picked ::
                pairs[p].dispatchOrder <= pairs[q].dispatchOrder
    {
      var available := set p | p in pairs && pairs[p].test == t && pairs[p].status == Pending && p !in locked;
      assert available == Available(Snap(), t, locked);
      picked := {};
      while |picked| < limit && available - picked != {}
        invariant picked <= available && |picked| <= limit
        invariant forall p, q | p in picked && q in available && q !in picked :: pairs[p].dispatchOrder <= pairs[q].dispatchOrder
        decreases |available - picked|
      {
        var p := FirstInOrder(available - picked);
        assert available - (picked + {p}) == available - picked - {p};
        picked := picked + {p};
      }
      Sets.SubsetSize(picked, available);
    }

    static ghost predicate LeasesSoFar(cfg: Config, db: Db, client: int, done: set<int>, rows: map<int, Pair>) {
      && rows.Keys == db.pairs.Keys
      && forall p | p in rows :: rows[p] == if p in done then LeaseRow(cfg, db, client, db.pairs[p]) else db.pairs[p]
    }

    /** The UPDATE of the claim, one picked row at a time. */
    method LeaseRows(client: int, picked: set<int>)
      requires picked <= pairs.Keys
      modifies `pairs
      ensures Snap() == Claim(cfg, old(Snap()), client, picked)
    {
      var db := Snap();
      var rest := picked;
      while rest != {}
        invariant rest <= picked && Snap() == db.(pairs := pairs)
        invariant LeasesSoFar(cfg, db, client, picked - rest, pairs)
        decreases |rest|
      {
        var p := Sets.Choose(rest);
        pairs := pairs[p := LeaseRow(cfg, db, client, pairs[p])];
        rest := rest - {p};
      }
      assert picked - {} == picked;
      LeasesDone(cfg, db, client, picked, pairs);
    }

    static lemma LeasesDone(cfg: Config, db: Db, client: int, picked: set<int>, rows: map<int, Pair>)
      requires LeasesSoFar(cfg, db, client, picked, rows)
      ensures rows == Claim(cfg, db, client, picked).pairs
    {
      var leased := Claim(cfg, db, client, picked).pairs;
      assert rows.Keys == leased.Keys;
      assert forall p | p in rows :: rows[p] == leased[p];
    }

    static ghost function EmptyClaimStatus(db: Db, client: int): ClaimStatus {
      if client !in db.clients then ClaimUnknownClient
      else if db.clients[client].status == Banned then ClaimBanned
      else if !SomeTestIs(db, Running) then NoActiveTest
      else ClaimOk
    }

    /** claim_pairs; locked holds the rows other transactions have locked. */
    method ClaimPairs(client: int, slotsFree: int, locked: set<int>) returns (status: ClaimStatus, picked: set<int>)
      requires Valid()
      modifies `pairs
      ensures LegalPick(old(Snap()), client, slotsFree, locked, picked)
      ensures Snap() == Claim(cfg, old(Snap()), client, picked)
      ensures Grants(cfg, old(Snap()), Snap(), client, picked)
      ensures picked != {} ==> |picked| <= slotsFree && client in clients && |picked| <= clients[client].slots
      ensures status == if picked != {} then ClaimOk else EmptyClaimStatus(old(Snap()), client)
    {
      ghost var db := Snap();
      picked := {};
      var active := FindTest(Running);
      if client in clients && clients[client].status != Banned && active.Some? {
        picked := PickPending(active.value, ClaimLimit(slotsFree, clients[client]), locked);
        assert IsPick(db, active.value, client, slotsFree, locked, picked);
        assert forall u | HasStatus(db, u, Running) :: u == active.value;
      }
      assert LegalPick(db, client, slotsFree, locked, picked);
      ClaimGrants(cfg, db, client, slotsFree, locked, picked);
      ClaimIsLimited(db, client, slotsFree, locked, picked);
      LeaseRows(client, picked);
      if picked != {} {
        status := ClaimOk;
      } else if client !in clients {
        status := ClaimUnknownClient;
      } else if clients[client].status == Banned {
        status := ClaimBanned;
      } else {
        status := if active.None? then NoActiveTest else ClaimOk;
      }
    }

    /** submit_result: the guard, both inserts and the refresh in one transaction. */
    method SubmitResult(p: int, report: PairReport) returns (status: SubmitStatus, validGames: nat)
      requires report.Valid()
      modifies `tests, `pairs, `games, `stats, `history
      ensures (Snap(), status) == Submit(cfg, old(Snap()), p, report)
      ensures status == AcceptedResult ==> validGames == Indicator(CheckPair(report, 0)) + Indicator(CheckPair(report, 1))
    {
      validGames := 0;
      ghost var db := Snap();
      if p !in pairs {
        return PairNotFound, 0;
      }
      if report.client !in clients {
        return UnknownClient, 0;
      }
      if clients[report.client].status == Banned {
        return ClientBanned, 0;
      }
      if pairs[p].status == Completed && pairs[p].leasedTo == Some(report.client) {
        return AlreadyCompleted, 0;
      }
      if pairs[p].test !in tests || tests[pairs[p].test].status != Running {
        return TestFinished, 0;
      }
      if pairs[p].status != Leased || pairs[p].leasedTo != Some(report.client) {
        return LeaseLost, 0;
      }
      status := AcceptedResult;
      var test, savedPairs, savedGames := pairs[p].test, pairs, games;
      pairs := pairs[p := pairs[p].(status := Completed)];
      var verdicts := CheckPairVerdicts(report);
      for i := 0 to 2
        invariant validGames == (if i > 0 then Indicator(verdicts[0]) else 0) + (if i > 1 then Indicator(verdicts[1]) else 0)
        invariant games == if i == 0 then savedGames
                           else if i == 1 then savedGames[GameKey(p, 0) := GameRow(test, report, 0)]
                           else savedGames[GameKey(p, 0) := GameRow(test, report, 0)][GameKey(p, 1) := GameRow(test, report, 1)]
        invariant Snap() == db.(pairs := pairs, games := games)
        invariant pairs == savedPairs[p := savedPairs[p].(status := Completed)]
      {
        if verdicts[i] {
          validGames := validGames + 1;
        }
        games := games[GameKey(p, i) := Game(test, report.client, report.games[i], verdicts[i])];
      }
      assert Snap() == Insert(db, p, report);
      var ok := RefreshTest(test);
      if !ok {
        pairs, games, status := savedPairs, savedGames, Aborted;
        assert Snap() == db;
      }
    }

    /** abandon_pair */
    method AbandonPair(p: int, client: int) returns (released: bool)
      modifies `pairs
      ensures Snap() == Abandon(old(Snap()), p, client) && (released <==> CanAbandon(old(Snap()), p, client))
    {
      released := p in pairs && pairs[p].status == Leased && pairs[p].leasedTo == Some(client);
      if released {
        pairs := pairs[p := pairs[p].(status := Pending, leasedTo := None, leaseExpiresAt := None)];
      }
    }

    /** The UPDATE of the recovery, one expired row at a time; its RETURNING clause. */
    method RecoverExpired(locked: set<int>) returns (returned: set<int>)
      modifies `pairs
      ensures Snap() == RecoverRows(cfg, old(Snap()), locked)
      ensures returned == Expired(old(Snap()), locked)
    {
      ghost var db := Snap();
      returned := Expired(Snap(), locked);
      var rest := returned;
      while rest != {}
        invariant Snap() == db.(pairs := pairs)
        invariant RecoverySoFar(cfg, db, locked, rest, pairs)
        decreases |rest|
      {
        var p := Sets.Choose(rest);
        var row := pairs[p];
        RecoveryStep(cfg, db, locked, rest, pairs, p);
        if row.attempts >= cfg.maxAttempts {
          pairs := pairs[p := row.(status := Discarded)];
        } else {
          pairs := pairs[p := row.(status := Pending, leasedTo := None, leaseExpiresAt := None)];
        }
        rest := rest - {p};
      }
      RecoveryDone(cfg, db, locked, pairs);
    }

    /** The loop over the returned rows: how many went back to the queue, how many were given up, and
        the tests that lost a pair. */
    method CountReturned(returned: set<int>) returns (discards: set<int>, requeued: nat, discarded: nat)
      requires returned <= pairs.Keys
      ensures forall p | p in returned && pairs[p].status == Discarded :: pairs[p].test in discards
      ensures forall t | t in discards :: exists p :: p in returned && pairs[p].status == Discarded && pairs[p].test == t
      ensures discarded == |GivenUp(pairs, returned, true)| && requeued == |GivenUp(pairs, returned, false)|
    {
      discards, requeued, discarded := {}, 0, 0;
      var rest := returned;
      assert returned - rest == {};
      while rest != {}
        invariant rest <= returned
        invariant forall t | t in discards :: exists p :: p in returned && pairs[p].status == Discarded && pairs[p].test == t
        invariant forall p | p in returned && pairs[p].status == Discarded :: p in rest || pairs[p].test in discards
        invariant discarded == |GivenUp(pairs, returned - rest, true)| && requeued == |GivenUp(pairs, returned - rest, false)|
        decreases |rest|
      {
        var p := Sets.Choose(rest);
        OneRowMore(pairs, returned, rest, p);
        if pairs[p].status == Discarded {
          discarded, discards := discarded + 1, discards + {pairs[p].test};
        } else {
          requeued := requeued + 1;
        }
        rest := rest - {p};
      }
      assert returned - rest == returned;
    }

    /** The rows of s that were given up, or those that were not. */
    static ghost function GivenUp(rows: map<int, Pair>, s: set<int>, given: bool): set<int> {
      set p | p in s && p in rows && (rows[p].status == Discarded) == given
    }

    static lemma OneRowMore(rows: map<int, Pair>, all: set<int>, rest: set<int>, p: int)
      requires p in rest && rest <= all && all <= rows.Keys
      ensures var given := rows[p].status == Discarded;
              && |GivenUp(rows, all - (rest - {p}), given)| == |GivenUp(rows, all - rest, given)| + 1
              && GivenUp(rows, all - (rest - {p}), !given) == GivenUp(rows, all - rest, !given)
    {
      var given := rows[p].status == Discarded;
      assert GivenUp(rows, all - (rest - {p}), given) == GivenUp(rows, all - rest, given) + {p};
    }

    static ghost predicate RecoverySoFar(cfg: Config, db: Db, locked: set<int>, rest: set<int>, rows: map<int, Pair>) {
      && rows.Keys == db.pairs.Keys && rest <= rows.Keys
      && (forall p | p in rest :: IsExpired(db, p, locked))
      && forall p | p in rows ::
           rows[p] == if IsExpired(db, p, locked) && p !in rest then RecoverRow(cfg, db.pairs[p]) else db.pairs[p]
    }

    static lemma RecoveryStep(cfg: Config, db: Db, locked: set<int>, rest: set<int>, rows: map<int, Pair>, p: int)
      requires RecoverySoFar(cfg, db, locked, rest, rows) && p in rest
      ensures rows[p] == db.pairs[p] && IsExpired(db, p, locked)
      ensures RecoverySoFar(cfg, db, locked, rest - {p}, rows[p := RecoverRow(cfg, rows[p])])
    {
    }

    static lemma RecoveryDone(cfg: Config, db: Db, locked: set<int>, rows: map<int, Pair>)
      requires RecoverySoFar(cfg, db, locked, {}, rows)
      ensures rows == RecoverRows(cfg, db, locked).pairs
    {
    }

    /** refresh_test for each test of a sorted set, until one throws. */
    method RefreshTests(ts: set<int>) returns (ok: bool)
      modifies `tests, `stats, `history
      ensures RefreshAll(cfg, old(Snap()), ts) == if ok then Some(Snap()) else None
    {
      ghost var all := RefreshAll(cfg, Snap(), ts);
      var todo := ts;
      ok := true;
      while todo != {} && ok
        invariant ok ==> RefreshAll(cfg, Snap(), todo) == all
        invariant !ok ==> all.None?
        decreases ok, |todo|
      {
        var t := LeastOf(todo);
        ok := RefreshTest(t);
        todo := todo - {t};
      }
    }

    static lemma DiscardsFound(cfg: Config, db: Db, locked: set<int>, discards: set<int>)
      requires var rows := RecoverRows(cfg, db, locked).pairs;
               && (forall p | p in Expired(db, locked) && rows[p].status == Discarded :: rows[p].test in discards)
               && (forall t | t in discards :: exists p :: p in Expired(db, locked) && rows[p].status == Discarded && rows[p].test == t)
      ensures discards == TestsWithDiscards(cfg, db, locked)
    {
      var rows := RecoverRows(cfg, db, locked).pairs;
      forall p | p in Expired(db, locked)
        ensures rows[p].test == db.pairs[p].test && (rows[p].status == Discarded <==> OutOfAttempts(cfg, db.pairs[p]))
      {
      }
      forall t | t in discards ensures t in TestsWithDiscards(cfg, db, locked) {
        var p :| p in Expired(db, locked) && rows[p].status == Discarded && rows[p].test == t;
        assert db.pairs[p].test == t;
      }
      forall t | t in TestsWithDiscards(cfg, db, locked) ensures t in discards {
        var p :| p in db.pairs && IsExpired(db, p, locked) && OutOfAttempts(cfg, db.pairs[p]) && db.pairs[p].test == t;
        assert p in Expired(db, locked) && rows[p].test == t;
      }
    }

    /** The lease update of the recovery with the tests that lost a pair by it. */
    method ReturnLeases(locked: set<int>) returns (discards: set<int>, requeued: nat, discarded: nat)
      modifies `pairs
      ensures Snap() == RecoverRows(cfg, old(Snap()), locked)
      ensures discards == TestsWithDiscards(cfg, old(Snap()), locked)
      ensures discarded == |set p | p in Expired(old(Snap()), locked) && old(pairs)[p].attempts >= cfg.maxAttempts|
      ensures requeued == |set p | p in Expired(old(Snap()), locked) && old(pairs)[p].attempts < cfg.maxAttempts|
    {
      ghost var db := Snap();
      var returned := RecoverExpired(locked);
      discards, requeued, discarded := CountReturned(returned);
      DiscardsFound(cfg, db, locked, discards);
      ReturnedByAttempts(cfg, db, locked);
    }

    static lemma ReturnedByAttempts(cfg: Config, db: Db, locked: set<int>)
      ensures var rows := RecoverRows(cfg, db, locked).pairs;
              && GivenUp(rows, Expired(db, locked), true) == (set p | p in Expired(db, locked) && db.pairs[p].attempts >= cfg.maxAttempts)
              && GivenUp(rows, Expired(db, locked), false) == (set p | p in Expired(db, locked) && db.pairs[p].attempts < cfg.maxAttempts)
    {
    }

    /** recover_expired_leases; committed is false where a refresh throws, which cannot happen to a
        valid database. */
    method RecoverExpiredLeases(locked: set<int>) returns (committed: bool, requeued: nat, discarded: nat)
      modifies `tests, `pairs, `stats, `history
      ensures Snap() == Recover(cfg, old(Snap()), locked)
      ensures committed <==> RefreshAll(cfg, RecoverRows(cfg, old(Snap()), locked), TestsWithDiscards(cfg, old(Snap()), locked)).Some?
      ensures old(Valid()) ==> committed
      ensures discarded == |set p | p in Expired(old(Snap()), locked) && old(pairs)[p].attempts >= cfg.maxAttempts|
      ensures requeued == |set p | p in Expired(old(Snap()), locked) && old(pairs)[p].attempts < cfg.maxAttempts|
    {
      var savedTests, savedPairs, savedStats, savedHistory := tests, pairs, stats, history;
      if Valid() {
        RecoveryCommits(cfg, Snap(), locked);
      }
      var discards;
      discards, requeued, discarded := ReturnLeases(locked);
      committed := RefreshTests(discards);
      if !committed {
        tests, pairs, stats, history := savedTests, savedPairs, savedStats, savedHistory;
      }
    }

    static method LeastOf(s: set<int>) returns (m: int)
      requires s != {}
      ensures m == Sets.Min(s)
    {
      m := Sets.Choose(s);
      var rest := s - {m};
      while rest != {}
        invariant rest <= s && m in s && forall x | x in s :: x in rest || m <= x
        decreases |rest|
      {
        var x := Sets.Choose(rest);
        if x < m {
          m := x;
        }
        rest := rest - {x};
      }
      assert Sets.Min(s) in s;
    }

    // -------------------------------------------------------------------------
    // Clients
    // -------------------------------------------------------------------------

    /** register_client: an upsert on the unique name. */
    method RegisterClient(name: string, slots: nat) returns (client: int, banned: bool)
      requires NamesUnique(clients) && nextClient !in clients
      modifies `clients, `nextClient
      ensures Snap() == Register(old(Snap()), name, slots)
      ensures client in clients && clients[client].name == name && clients[client].slots == slots
      ensures banned <==> clients[client].status == Banned
      ensures banned <==> client in old(clients) && old(clients)[client].status == Banned
    {
      var found := FindClient(name);
      if found.Some? {
        client := found.value;
        var status := if clients[client].status == Banned then Banned else Active;
        clients := clients[client := clients[client].(slots := slots, status := status)];
      } else {
        client := nextClient;
        clients := clients[client := Client(name, slots, None, Active)];
        nextClient := nextClient + 1;
      }
      banned := clients[client].status == Banned;
    }

    /** The administrator's UPDATE; the server itself bans nobody. */
    method BanByHand(client: int)
      modifies `clients
      ensures Snap() == Ban(old(Snap()), client)
    {
      if client in clients {
        clients := clients[client := clients[client].(status := Banned)];
      }
    }

    method FindClient(name: string) returns (found: Option<int>)
      requires NamesUnique(clients)
      ensures found == ClientNamed(clients, name)
    {
      found := None;
      var rest := clients.Keys;
      while rest != {} && found.None?
        invariant rest <= clients.Keys
        invariant found.Some? ==> NameTaken(clients, name, found.value)
        invariant found.None? ==> forall c | c in clients.Keys - rest :: clients[c].name != name
        decreases |rest|
      {
        var c := Sets.Choose(rest);
        if clients[c].name == name {
          found := Some(c);
        }
        rest := rest - {c};
      }
    }

    /** heartbeat: None for an unknown client, otherwise whether it is banned. */
    method RecordHeartbeat(client: int, factor: Option<real>) returns (banned: Option<bool>)
      modifies `clients
      ensures Snap() == Heartbeat(old(Snap()), client, factor)
      ensures banned == if client in old(clients) then Some(old(clients)[client].status == Banned) else None
    {
      ghost var db := Snap();
      banned := None;
      if client in clients {
        var row := clients[client];
        var status := if row.status == Banned then Banned else Active;
        row := row.(status := status);
        if factor.Some? {
          row := row.(cpuFactor := factor);
        }
        clients := clients[client := row];
        banned := Some(status == Banned);
      }
    }

    // -------------------------------------------------------------------------
    // server/admin.cpp, server/smoke.cpp, server/main.cpp
    // -------------------------------------------------------------------------

    method CreateTest(kind: Kind, totalPairs: nat, rank: int, baseMs: nat, incMs: nat) returns (id: int)
      requires nextTest !in tests
      modifies `tests, `nextTest
      ensures Snap() == InsertTest(old(Snap()), kind, totalPairs, rank, baseMs, incMs)
      ensures id !in old(tests) && HasStatus(Snap(), id, Validating)
    {
      id := nextTest;
      tests := tests[id := Test(kind, Validating, NoVerdict, totalPairs, rank, now, baseMs, incMs)];
      nextTest := nextTest + 1;
    }

    method StopTest(t: int) returns (status: StopStatus, promoted: Option<int>)
      modifies `tests
      ensures Snap() == Stop(old(Snap()), t)
      ensures status == if t !in old(tests) then StopNotFound
                        else if Stoppable(old(tests)[t].status) then StoppedNow else AlreadyTerminal
      ensures promoted.Some? ==> HasStatus(old(Snap()), t, Running)
      ensures forall u :: HasStatus(Snap(), u, Running) && !HasStatus(old(Snap()), u, Running) <==> promoted == Some(u)
    {
      promoted := None;
      if t !in tests {
        return StopNotFound, None;
      }
      var prev := tests[t].status;
      if prev != Validating && prev != Queued && prev != Running {
        return AlreadyTerminal, None;
      }
      tests := tests[t := tests[t].(status := Stopped)];
      if prev == Running {
        promoted := PromoteNextTest();
      }
      status := StoppedNow;
    }

    method ChangePriority(t: int, rank: int) returns (status: PriorityStatus)
      modifies `tests
      ensures Snap() == SetPriority(old(Snap()), t, rank)
      ensures status == PriorityUpdated <==> HasStatus(old(Snap()), t, Validating) || HasStatus(old(Snap()), t, Queued)
      ensures status == PriorityNotFound <==> t !in old(tests)
    {
      if t !in tests {
        return PriorityNotFound;
      }
      if tests[t].status != Validating && tests[t].status != Queued {
        return NotQueued;
      }
      tests := tests[t := tests[t].(priority := rank)];
      status := PriorityUpdated;
    }

    /** The read phase of process_next: the oldest test still validating. */
    method NextToValidate() returns (t: Option<int>)
      ensures t.Some? ==> HasStatus(Snap(), t.value, Validating)
                          && forall u | HasStatus(Snap(), u, Validating) :: t.value <= u
      ensures t.None? ==> !SomeTestIs(Snap(), Validating)
    {
      var waiting := set u | u in tests && tests[u].status == Validating;
      if waiting == {} {
        assert forall u :: HasStatus(Snap(), u, Validating) ==> u in waiting;
        return None;
      }
      var first := LeastOf(waiting);
      t := Some(first);
      assert forall u :: HasStatus(Snap(), u, Validating) ==> u in waiting;
    }

    static ghost predicate RowsSoFar(db: Db, t: int, orders: seq<real>, i: nat, rows: map<int, Pair>)
      requires i <= |orders|
    {
      && (forall p :: p in rows <==> p in db.pairs || db.nextPair <= p < db.nextPair + i)
      && forall p | p in rows ::
           rows[p] == if db.nextPair <= p < db.nextPair + i
                      then NewRow(db, t, orders, p) else db.pairs[p]
    }

    static function NewRow(db: Db, t: int, orders: seq<real>, p: int): Pair
      requires db.nextPair <= p < db.nextPair + |orders|
    {
      Pair(t, p - db.nextPair + 1, Pending, orders[p - db.nextPair], None, None, 0)
    }

    static lemma RowsStep(db: Db, t: int, orders: seq<real>, i: nat, rows: map<int, Pair>)
      requires i < |orders| && RowsSoFar(db, t, orders, i, rows)
      ensures RowsSoFar(db, t, orders, i + 1, rows[db.nextPair + i := NewRow(db, t, orders, db.nextPair + i)])
    {
    }

    static lemma RowsDone(db: Db, t: int, orders: seq<real>, rows: map<int, Pair>)
      requires RowsSoFar(db, t, orders, |orders|, rows)
      ensures rows == AddPairs(db, t, orders).pairs
    {
      var added := AddPairs(db, t, orders).pairs;
      assert forall p :: p in rows <==> p in added;
      assert forall p | p in rows :: rows[p] == added[p];
    }

    /** INSERT INTO job_pairs: one row for each sampled position. */
    method AddRows(t: int, orders: seq<real>)
      modifies `pairs, `nextPair
      ensures Snap() == AddPairs(old(Snap()), t, orders)
    {
      ghost var db := Snap();
      for i := 0 to |orders|
        invariant nextPair == db.nextPair + i
        invariant Snap() == db.(pairs := pairs, nextPair := nextPair)
        invariant RowsSoFar(db, t, orders, i, pairs)
      {
        RowsStep(db, t, orders, i, pairs);
        pairs := pairs[nextPair := Pair(t, i + 1, Pending, orders[i], None, None, 0)];
        nextPair := nextPair + 1;
      }
      RowsDone(db, t, orders, pairs);
    }

    /** The commit phase of process_next, any time after its read phase; rolled back if the refresh
        throws. */
    method CommitSmokeTest(t: int, built: bool, orders: seq<real>)
      modifies `tests, `pairs, `stats, `history, `nextPair
      ensures Snap() == SmokeCommit(cfg, old(Snap()), t, built, orders)
    {
      if t !in tests || tests[t].status != Validating {
        return;
      }
      if !built || |orders| < tests[t].totalPairs {
        tests := tests[t := tests[t].(status := Invalid)];
        return;
      }
      var savedTests, savedPairs, savedNext := tests, pairs, nextPair;
      AddRows(t, orders);
      tests := tests[t := tests[t].(status := Queued)];
      var ok := RefreshTest(t);
      if ok {
        var promoted := PromoteNextTest();
      } else {
        tests, pairs, nextPair := savedTests, savedPairs, savedNext;
      }
    }

    /** maintenance_tick: lease recovery, then a promotion in a transaction of its own. An exception of
        the recovery would skip the promotion. */
    method MaintenanceTick(locked: set<int>)
      modifies this
      ensures old(Valid()) ==> Snap() == Promote(Recover(cfg, old(Snap()), locked))
      ensures Snap() == Promote(Recover(cfg, old(Snap()), locked)) || Snap() == old(Snap())
    {
      var committed, requeued, discarded := RecoverExpiredLeases(locked);
      if !committed {
        return;
      }
      var promoted := PromoteNextTest();
    }

    // -------------------------------------------------------------------------
    // The object as a whole
    // -------------------------------------------------------------------------

    method Tick(dt: real)
      requires dt >= 0.0
      modifies `now
      ensures Snap() == old(Snap()).(now := old(now) + dt)
    {
      now := now + dt;
    }

    /** Any transaction, chosen by a: it does what Queue says and keeps the invariant. The claim is made
        with the pick the action names. */
    method Perform(a: Action)
      requires Valid() && Enabled(Snap(), a)
      modifies this
      ensures Valid() && Snap() == Apply(cfg, old(Snap()), a)
    {
      ApplyKeeps(cfg, Snap(), a);
      match a
      case DoTick(dt) => Tick(dt);
      case DoRegister(name, slots) => var client, banned := RegisterClient(name, slots);
      case DoBan(c) => BanByHand(c);
      case DoHeartbeat(c, factor) => var banned := RecordHeartbeat(c, factor);
      case DoInsertTest(kind, totalPairs, rank, baseMs, incMs) =>
        NoPairsYet(Snap());
        var id := CreateTest(kind, totalPairs, rank, baseMs, incMs);
      case DoSetPriority(t, rank) => var status := ChangePriority(t, rank);
      case DoStop(t) => var status, promoted := StopTest(t);
      case DoSmokeCommit(t, built, orders) => CommitSmokeTest(t, built, orders);
      case DoClaim(client, slotsFree, locked, picked) =>
        PickedExist(Snap(), client, slotsFree, locked, picked);
        LeaseRows(client, picked);
      case DoSubmit(p, report) => var status, validGames := SubmitResult(p, report);
      case DoAbandon(p, client) => var released := AbandonPair(p, client);
      case DoRecover(locked) => var committed, requeued, discarded := RecoverExpiredLeases(locked);
      case DoPromote => var promoted := PromoteNextTest();
    }

    static lemma PickedExist(db: Db, client: int, slotsFree: int, locked: set<int>, picked: set<int>)
      requires LegalPick(db, client, slotsFree, locked, picked)
      ensures picked <= db.pairs.Keys
    {
      forall p | p in picked ensures p in db.pairs {
        PickedRows(db, client, slotsFree, locked, picked, p);
      }
    }
  }
}
