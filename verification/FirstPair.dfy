/** The first steps of a run from the empty database, for any kind of test: one client, one test of one
    pair, and the pair leased to the client. */
module FirstPair {
  import opened Schema
  import opened Outcomes
  import opened Lifecycle
  import opened Queue
  import Interleaved
  import Sets

  const CLIENT := Client("client", 1, None, Active)
  const PAIR := Pair(1, 1, Pending, 0.0, None, None, 0)
  const WHITE_WIN := GameReport(true, CandidateWin, Normal, Some(40), Some(1500), 1000, 0, "")
  const BLACK_DRAW := GameReport(false, Draw, Normal, Some(60), Some(1800), 1000, 0, "")
  const REPORT := PairReport(1, [WHITE_WIN, BLACK_DRAW])

  function OnePairTest(kind: Kind, status: TestStatus): Test { Test(kind, status, NoVerdict, 1, 0, 0.0, 1000, 0) }

  const REGISTER: Action := DoRegister("client", 1)
  const ADMIT: Action := DoSmokeCommit(1, true, [0.0])
  const CLAIM: Action := DoClaim(1, 1, {}, {1})

  function InsertOf(kind: Kind): Action { DoInsertTest(kind, 1, 0, 1000, 0) }

  lemma Registered(cfg: Config) returns (db: Db)
    ensures db == Apply(cfg, EMPTY_DB, REGISTER) && db == EMPTY_DB.(clients := map[1 := CLIENT], nextClient := 2)
  {
    db := Apply(cfg, EMPTY_DB, REGISTER);
    assert EMPTY_DB.clients[1 := CLIENT] == map[1 := CLIENT];
  }

  lemma TestInserted(cfg: Config, kind: Kind, db: Db) returns (after: Db)
    requires db == EMPTY_DB.(clients := map[1 := CLIENT], nextClient := 2)
    ensures after == Apply(cfg, db, InsertOf(kind)) && after == db.(tests := map[1 := OnePairTest(kind, Validating)], nextTest := 2)
  {
    after := Apply(cfg, db, InsertOf(kind));
    assert db.tests[1 := OnePairTest(kind, Validating)] == map[1 := OnePairTest(kind, Validating)];
  }

  lemma OnePairAdded(kind: Kind, db: Db)
    requires db.tests == map[1 := OnePairTest(kind, Validating)] && db.nextPair == 1 && db.pairs == map[]
    ensures AddPairs(db, 1, [0.0]) == db.(pairs := map[1 := PAIR], nextPair := 2)
  {
    var after := AddPairs(db, 1, [0.0]);
    assert Sets.Range(1, 1) == {1};
    assert after.pairs == map[1 := PAIR];
  }

  lemma StartOnly(kind: Kind, db: Db)
    requires db.tests == map[1 := OnePairTest(kind, Queued)]
    ensures Promote(db) == db.(tests := map[1 := OnePairTest(kind, Running)])
  {
    assert HasStatus(db, 1, Queued);
    assert db.tests[1 := OnePairTest(kind, Running)] == map[1 := OnePairTest(kind, Running)];
    var t := PromoteEffect(db);
    assert t == 1;
  }

  lemma NothingCounted(cfg: Config, db: Db, t: int)
    requires t in db.tests && db.games == map[]
    ensures Recompute(cfg, db, t).Some?
  {
    PentaTotal(db, t);
    assert CountedPairs(db, t) == {};
  }

  /** The queued test is refreshed and started. */
  lemma Started(cfg: Config, kind: Kind, queued: Db)
    requires queued.tests == map[1 := OnePairTest(kind, Queued)] && queued.games == map[]
    ensures Refresh(cfg, queued, 1).Some?
    ensures var after := Promote(Refresh(cfg, queued, 1).value);
            && after.tests == map[1 := OnePairTest(kind, Running)]
            && after.pairs == queued.pairs && after.games == queued.games && after.clients == queued.clients && after.now == queued.now
  {
    NothingCounted(cfg, queued, 1);
    var refreshed := Record(queued, 1, Recompute(cfg, queued, 1).value);
    assert Refresh(cfg, queued, 1) == Some(refreshed);
    StartOnly(kind, refreshed);
  }

  lemma Admitted(cfg: Config, kind: Kind, db: Db) returns (after: Db)
    requires db.tests == map[1 := OnePairTest(kind, Validating)] && db.nextPair == 1 && db.pairs == map[] && db.games == map[]
    requires Enabled(db, ADMIT)
    ensures after == Apply(cfg, db, ADMIT)
    ensures after.tests == map[1 := OnePairTest(kind, Running)] && after.pairs == map[1 := PAIR]
    ensures after.games == db.games && after.clients == db.clients && after.now == db.now
  {
    after := Apply(cfg, db, ADMIT);
    OnePairAdded(kind, db);
    Started(cfg, kind, SetStatus(AddPairs(db, 1, [0.0]), 1, Queued));
  }

  lemma Claimable(kind: Kind, db: Db)
    requires db.tests == map[1 := OnePairTest(kind, Running)] && db.pairs == map[1 := PAIR] && db.clients == map[1 := CLIENT]
    ensures Enabled(db, CLAIM)
  {
    assert Available(db, 1, {}) == {1};
    assert ClaimLimit(1, CLIENT) == 1 && |{1}| == 1;
    assert IsPick(db, 1, 1, 1, {}, {1});
    assert KnownClient(db, 1) && HasStatus(db, 1, Running);
    assert forall t | HasStatus(db, t, Running) :: t == 1;
  }

  /** The client holds the pair of the running test. */
  predicate Ready(kind: Kind, db: Db) {
    && db.tests == map[1 := OnePairTest(kind, Running)] && db.clients == map[1 := CLIENT] && db.pairs.Keys == {1}
    && db.pairs[1].test == 1 && db.pairs[1].status == Leased && Holds(db.pairs[1], 1)
  }

  lemma Claimed(cfg: Config, kind: Kind, db: Db) returns (after: Db)
    requires db.tests == map[1 := OnePairTest(kind, Running)] && db.pairs == map[1 := PAIR] && db.clients == map[1 := CLIENT]
    requires Enabled(db, CLAIM)
    ensures after == Apply(cfg, db, CLAIM) && Ready(kind, after)
  {
    after := Apply(cfg, db, CLAIM);
  }

  lemma ReadyAccepts(kind: Kind, db: Db)
    requires Ready(kind, db)
    ensures SubmitGuard(db, 1, 1) == AcceptedResult
  {
    assert HasStatus(db, 1, Running);
  }

  lemma BothGamesValid()
    ensures REPORT.Valid() && Interleaved.BothValid(REPORT)
  {
    assert REPORT.games[0] == WHITE_WIN && REPORT.games[1] == BLACK_DRAW;
  }
}
