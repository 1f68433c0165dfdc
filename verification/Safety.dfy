/** The promises of the queue in every reachable state, and for what follows any reachable state. */
module Safety {
  import opened Schema
  import opened Outcomes
  import opened Lifecycle
  import opened Queue
  import opened Invariants
  import opened Runs
  import opened Transitions

  ghost predicate Reachable(cfg: Config, db: Db) {
    exists run :: Legal(cfg, EMPTY_DB, run) && After(cfg, EMPTY_DB, run) == db
  }

  lemma ReachableInv(cfg: Config, db: Db)
    requires Reachable(cfg, db)
    ensures Inv(cfg, db)
  {
    var run :| Legal(cfg, EMPTY_DB, run) && After(cfg, EMPTY_DB, run) == db;
    EmptyInv(cfg);
    RunKeeps(cfg, EMPTY_DB, run);
  }

  /** At most one test runs; none waits while none runs; a running test has work left and its
      statistics, recomputed from the games, call for no verdict. */
  lemma SchedulerSafety(cfg: Config, db: Db)
    requires Reachable(cfg, db)
    ensures forall t, u | HasStatus(db, t, Running) && HasStatus(db, u, Running) :: t == u
    ensures SomeTestIs(db, Queued) ==> SomeTestIs(db, Running)
    ensures forall t | HasStatus(db, t, Running) ::
              && HasLivePair(db, t)
              && Recompute(cfg, db, t).Some? && Decide(cfg, db.tests[t].kind, Recompute(cfg, db, t).value) == Continue
  {
    ReachableInv(cfg, db);
    forall t | HasStatus(db, t, Running)
      ensures HasLivePair(db, t)
      ensures Recompute(cfg, db, t).Some? && Decide(cfg, db.tests[t].kind, Recompute(cfg, db, t).value) == Continue
    {
      assert KeepsRunning(cfg, db, t) && Synced(cfg, db, t) && TestOk(db, t);
    }
  }

  lemma SyncedAgrees(cfg: Config, db: Db, t: int)
    requires GamesOk(db) && t in db.tests && t in db.stats && Recompute(cfg, db, t) == Some(db.stats[t])
    ensures var st := db.stats[t];
            && |st.penta| == 5
            && st.wins + st.draws + st.losses == 2 * Total(st.penta)
            && 2 * st.wins + st.draws == st.penta[1] + 2 * st.penta[2] + 3 * st.penta[3] + 4 * st.penta[4]
  {
    ScoreAgreesWithPenta(db, t);
  }

  /** The stored statistics are those of the stored games, and the stored score and pentanomial,
      computed by two different queries, agree. */
  lemma StatisticsAreTrue(cfg: Config, db: Db, t: int)
    requires Reachable(cfg, db) && t in db.stats
    ensures t in db.tests && Recompute(cfg, db, t) == Some(db.stats[t])
    ensures var st := db.stats[t];
            && |st.penta| == 5
            && st.wins + st.draws + st.losses == 2 * Total(st.penta)
            && 2 * st.wins + st.draws == st.penta[1] + 2 * st.penta[2] + 3 * st.penta[3] + 4 * st.penta[4]
  {
    ReachableInv(cfg, db);
    assert GamesOk(db) && t in db.tests;
    assert Synced(cfg, db, t);
    SyncedAgrees(cfg, db, t);
  }

  /** The games that count with outcome o: the valid games of the counted pairs. */
  ghost predicate CountsAs(db: Db, t: int, key: GameKey, o: Outcome) {
    && key in db.games && db.games[key].test == t && db.games[key].valid && db.games[key].report.outcome == o
    && exists k: nat :: k < 5 && Scored(db, t, key.pair, k)
  }

  /** A stored row entry by entry: pairs by their half points, games by their outcome, and the LLR of the test's own
      hypotheses in their order, 0 before the first pair, none for a gauntlet. */
  lemma StatisticsInColumns(cfg: Config, db: Db, t: int)
    requires Reachable(cfg, db) && t in db.stats
    ensures t in db.tests
    ensures var st, kind := db.stats[t], db.tests[t].kind;
            && (forall k: nat | k < 5 :: |st.penta| == 5 && st.penta[k] == |set p | p in db.pairs && Scored(db, t, p, k)|)
            && st.wins == |set key | key in db.games && CountsAs(db, t, key, CandidateWin)|
            && st.draws == |set key | key in db.games && CountsAs(db, t, key, Draw)|
            && st.losses == |set key | key in db.games && CountsAs(db, t, key, CandidateLoss)|
            && (kind.Gauntlet? ==> st.llr == None)
            && (kind.Sprt? ==> st.llr == if Total(st.penta) == 0 then Some(0.0) else cfg.llr(kind.elo0, kind.elo1, st.penta))
  {
    StatisticsAreTrue(cfg, db, t);
    ReachableInv(cfg, db);
    assert GamesOk(db);
    forall k: nat | k < 5 ensures db.stats[t].penta[k] == |set p | p in db.pairs && Scored(db, t, p, k)| {
      PentaCounts(db, t, k);
    }
    GamesThatCount(db, t, CandidateWin);
    GamesThatCount(db, t, Draw);
    GamesThatCount(db, t, CandidateLoss);
  }

  lemma GamesThatCount(db: Db, t: int, o: Outcome)
    requires GamesOk(db)
    ensures ScoredGames(db, t, o) == set key | key in db.games && CountsAs(db, t, key, o)
  {
    forall key | key in db.games
      ensures key in ScoredGames(db, t, o) <==> CountsAs(db, t, key, o)
    {
      var p := key.pair;
      if PairScore(db, p).Some? && db.games[key].test == t {
        var k: nat := HalfPoints(Row(db, p, 0).value.report.outcome) + HalfPoints(Row(db, p, 1).value.report.outcome);
        assert Scored(db, t, p, k);
      }
    }
  }

  /** The history has exactly one point for each number of valid pairs from 0 to the present one,
      in that order, and ends with the present LLR. */
  lemma HistoryIsComplete(cfg: Config, db: Db, t: int)
    requires Reachable(cfg, db) && t in db.history
    ensures t in db.stats && |db.history[t]| == Total(db.stats[t].penta) + 1
    ensures forall i | 0 <= i < |db.history[t]| :: db.history[t][i].pairsValid == i
    ensures db.history[t][|db.history[t]| - 1].llr == db.stats[t].llr
  {
    ReachableInv(cfg, db);
    assert Synced(cfg, db, t);
  }

  ghost function InStatus(db: Db, t: int, s: PairStatus): set<int> {
    set p | p in db.pairs && db.pairs[p].test == t && db.pairs[p].status == s
  }

  lemma FourStates(db: Db, t: int)
    ensures |InStatus(db, t, Pending)| + |InStatus(db, t, Leased)| + |InStatus(db, t, Completed)| + |InStatus(db, t, Discarded)|
         == |Owned(db, t)|
  {
    var a, b, c, d := InStatus(db, t, Pending), InStatus(db, t, Leased), InStatus(db, t, Completed), InStatus(db, t, Discarded);
    assert forall p :: p in Owned(db, t) <==> p in a + b + c + d;
    assert Owned(db, t) == a + b + c + d;
    assert |a + b| == |a| + |b|;
    assert |a + b + c| == |a + b| + |c|;
    assert |a + b + c + d| == |a + b + c| + |d|;
  }

  /** A test owns no pair or exactly total_pairs, each in one of the four states, each for a
      different opening position. */
  lemma PairsAreConserved(cfg: Config, db: Db, t: int)
    requires Reachable(cfg, db) && t in db.tests
    ensures var n := |InStatus(db, t, Pending)| + |InStatus(db, t, Leased)| + |InStatus(db, t, Completed)| + |InStatus(db, t, Discarded)|;
            n == 0 || n == db.tests[t].totalPairs
    ensures forall p, q | p in db.pairs && q in db.pairs && db.pairs[p].test == t && db.pairs[q].test == t ::
              db.pairs[p].position == db.pairs[q].position ==> p == q
  {
    ReachableInv(cfg, db);
    FourStates(db, t);
    assert TestOk(db, t);
  }

  /** What the verdict of test t says about its stored statistics. */
  ghost predicate VerdictSays(cfg: Config, db: Db, t: int)
    requires t in db.tests && t in db.stats
  {
    var test, st := db.tests[t], db.stats[t];
    && (test.kind.Gauntlet? <==> test.result == AllPlayed)
    && (test.result == AllPlayed || test.result == Inconclusive ==> !HasLivePair(db, t))
    && (test.kind.Sprt? ==>
          var bounds := cfg.bounds(test.kind.alpha, test.kind.beta);
          && st.llr.Some?
          && (test.result == Accepted <==> Total(st.penta) > 0 && st.llr.value >= bounds.upper)
          && (test.result == Rejected <==> Total(st.penta) > 0 && bounds.upper > st.llr.value && bounds.lower >= st.llr.value)
          && (test.result == Inconclusive <==> Total(st.penta) == 0 || bounds.lower < st.llr.value < bounds.upper))
  }

  /** The verdict of a finished test is the one its frozen statistics call for. */
  lemma VerdictMatchesStatistics(cfg: Config, db: Db, t: int)
    requires Reachable(cfg, db) && HasStatus(db, t, Finished)
    ensures t in db.stats
    ensures VerdictSays(cfg, db, t)
  {
    ReachableInv(cfg, db);
    assert VerdictFits(cfg, db, t) && TestOk(db, t) && Synced(cfg, db, t);
  }

  /** The verdict is the mark of a finished test. */
  lemma VerdictOnlyWhenFinished(cfg: Config, db: Db, t: int)
    requires Reachable(cfg, db) && t in db.tests
    ensures db.tests[t].result != NoVerdict <==> db.tests[t].status == Finished
  {
    ReachableInv(cfg, db);
    assert TestOk(db, t);
  }

  /** Whatever happens later, a test that has ended keeps its status, verdict, statistics, history
      and pairs. */
  lemma {:induction false} EndedForever(cfg: Config, db: Db, run: seq<Action>, t: int)
    requires Inv(cfg, db) && Legal(cfg, db, run)
    requires t in db.tests && Terminal(db.tests[t].status)
    ensures Frozen(db, After(cfg, db, run), t)
    decreases |run|
  {
    if run != [] {
      EndedTestsAreFrozen(cfg, db, run[0], t);
      ApplyKeeps(cfg, db, run[0]);
      EndedForever(cfg, Apply(cfg, db, run[0]), run[1..], t);
    } else {
      SamePairsFrozen(db, db, t);
    }
  }

  /** A test stopped during its smoke test never gets pairs and never enters the queue, whatever
      runs between the worker's read phase and its commit phase, and after. */
  lemma StoppedInSmokeTestStaysOut(cfg: Config, db: Db, run: seq<Action>, t: int)
    requires Reachable(cfg, db) && HasStatus(db, t, Validating)
    requires Legal(cfg, Apply(cfg, db, DoStop(t)), run)
    ensures var end := After(cfg, Apply(cfg, db, DoStop(t)), run);
            HasStatus(end, t, Stopped) && Owned(end, t) == {} && t !in end.stats
  {
    ReachableInv(cfg, db);
    var stopped := Apply(cfg, db, DoStop(t));
    ApplyKeeps(cfg, db, DoStop(t));
    assert TestOk(db, t) && Synced(cfg, db, t);
    assert Owned(stopped, t) == Owned(db, t);
    EndedForever(cfg, stopped, run, t);
  }
}
