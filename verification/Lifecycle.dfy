/** server/test_lifecycle.cpp as functions on the database: recomputing a test's statistics,
    ending it, and promoting the next one, all inside the calling transaction. */
module Lifecycle {
  import opened Schema
  import opened Outcomes
  import Sets

  datatype Decision = Continue | AcceptH1 | AcceptH0

  function SprtDecide(llr: real, bounds: Bounds): Decision {
    if llr >= bounds.upper then AcceptH1 else if llr <= bounds.lower then AcceptH0 else Continue
  }

  /** llr_normalized; None where it throws. */
  function Llr(cfg: Config, elo0: real, elo1: real, penta: seq<nat>): Option<real> {
    if Total(penta) == 0 then Some(0.0) else cfg.llr(elo0, elo1, penta)
  }

  function StatsFrom(cfg: Config, kind: Kind, penta: seq<nat>, wins: nat, draws: nat, losses: nat): Option<Stats> {
    match kind
    case Gauntlet => Some(Stats(penta, None, wins, draws, losses))
    case Sprt(elo0, elo1, _, _) =>
      match Llr(cfg, elo0, elo1, penta)
      case None => None
      case Some(x) => Some(Stats(penta, Some(x), wins, draws, losses))
  }

  /** The statistics of test t from scratch, over the games the database holds. */
  ghost function Recompute(cfg: Config, db: Db, t: int): Option<Stats>
    requires t in db.tests
  {
    StatsFrom(cfg, db.tests[t].kind, PentaOf(db, t), |ScoredGames(db, t, CandidateWin)|,
              |ScoredGames(db, t, Draw)|, |ScoredGames(db, t, CandidateLoss)|)
  }

  function Decide(cfg: Config, kind: Kind, st: Stats): Decision {
    match kind
    case Gauntlet => Continue
    case Sprt(_, _, alpha, beta) =>
      if Total(st.penta) == 0 || st.llr.None? then Continue
      else SprtDecide(st.llr.value, cfg.bounds(alpha, beta))
  }

  predicate LiveStatus(s: PairStatus) { s == Pending || s == Leased }

  predicate IsLive(db: Db, p: int, t: int) {
    p in db.pairs && db.pairs[p].test == t && LiveStatus(db.pairs[p].status)
  }

  ghost predicate HasLivePair(db: Db, t: int) {
    exists p :: IsLive(db, p, t)
  }

  predicate HasStatus(db: Db, t: int, s: TestStatus) {
    t in db.tests && db.tests[t].status == s
  }

  ghost predicate SomeTestIs(db: Db, s: TestStatus) {
    exists t :: HasStatus(db, t, s)
  }

  function AppendPoint(h: seq<HistoryPoint>, pairsValid: nat, llr: Option<real>): seq<HistoryPoint> {
    if h != [] && h[|h| - 1].pairsValid == pairsValid then h else h + [HistoryPoint(pairsValid, llr)]
  }

  function HistoryOf(db: Db, t: int): seq<HistoryPoint> {
    if t in db.history then db.history[t] else []
  }

  function Record(db: Db, t: int, st: Stats): Db {
    db.(stats := db.stats[t := st],
        history := db.history[t := AppendPoint(HistoryOf(db, t), Total(st.penta), st.llr)])
  }

  /** ORDER BY priority DESC, created_at, id */
  predicate Before(db: Db, t: int, u: int)
    requires t in db.tests && u in db.tests
  {
    var a, b := db.tests[t], db.tests[u];
    a.priority > b.priority
    || (a.priority == b.priority && (a.createdAt < b.createdAt || (a.createdAt == b.createdAt && t < u)))
  }

  ghost predicate IsNext(db: Db, t: int) {
    && HasStatus(db, t, Queued)
    && forall u | u in db.tests && u != t :: db.tests[u].status == Queued ==> Before(db, t, u)
  }

  function SetStatus(db: Db, t: int, s: TestStatus): Db
    requires t in db.tests
  {
    db.(tests := db.tests[t := db.tests[t].(status := s)])
  }

  /** promote_next_test: does nothing while a test runs or none is queued. */
  ghost function Promote(db: Db): Db {
    if SomeTestIs(db, Running) || !exists t :: IsNext(db, t) then db
    else var t :| IsNext(db, t); SetStatus(db, t, Running)
  }

  ghost function Finish(db: Db, t: int, result: TestResult): Db
    requires t in db.tests
  {
    Promote(db.(tests := db.tests[t := db.tests[t].(status := Finished, result := result)]))
  }

  /** What refresh_test does after storing the statistics. */
  ghost function Settle(cfg: Config, db: Db, t: int, st: Stats): Db
    requires t in db.tests
  {
    if db.tests[t].status != Running then db
    else match Decide(cfg, db.tests[t].kind, st)
      case AcceptH1 => Finish(db, t, Accepted)
      case AcceptH0 => Finish(db, t, Rejected)
      case Continue =>
        if HasLivePair(db, t) then db
        else Finish(db, t, if db.tests[t].kind.Sprt? then Inconclusive else AllPlayed)
  }

  /** refresh_test; None when the LLR computation throws and the transaction rolls back. */
  ghost function Refresh(cfg: Config, db: Db, t: int): Option<Db> {
    if t !in db.tests then Some(db)
    else match Recompute(cfg, db, t)
      case None => None
      case Some(st) => Some(Settle(cfg, Record(db, t, st), t, st))
  }

  // ---------------------------------------------------------------------------
  // Promotion picks a well-defined test.
  // ---------------------------------------------------------------------------

  lemma NextIsUnique(db: Db, t: int, u: int)
    requires IsNext(db, t) && IsNext(db, u)
    ensures t == u
  {
  }

  lemma BeforeIsOrder(db: Db, t: int, u: int, v: int)
    requires t in db.tests && u in db.tests && v in db.tests
    ensures t != u ==> Before(db, t, u) || Before(db, u, t)
    ensures Before(db, t, u) && Before(db, u, v) ==> Before(db, t, v)
  {
  }

  /** The first of a nonempty set of tests in promotion order. */
  lemma {:induction false} FirstOf(db: Db, s: set<int>) returns (t: int)
    requires s != {} && s <= db.tests.Keys
    ensures t in s && forall u | u in s && u != t :: Before(db, t, u)
    decreases |s|
  {
    t := Sets.Pick(s);
    var rest := s - {t};
    if rest != {} {
      var r := FirstOf(db, rest);
      var first := t;
      if !Before(db, first, r) {
        t := r;
      }
      forall u | u in s && u != t ensures Before(db, t, u) {
        assert u == first || u == r || (u in rest && Before(db, r, u));
        BeforeIsOrder(db, first, r, u);
      }
    }
  }

  lemma SomeNext(db: Db)
    requires SomeTestIs(db, Queued)
    ensures exists t :: IsNext(db, t)
  {
    var queued := set t | t in db.tests && db.tests[t].status == Queued;
    var q :| HasStatus(db, q, Queued);
    assert q in queued;
    var t := FirstOf(db, queued);
    assert IsNext(db, t);
  }

  /** No test that waits comes before t: none has a higher priority, none of the same priority is older,
      and none of the same priority and age has a smaller id. */
  ghost predicate NoneBefore(db: Db, t: int)
    requires t in db.tests
  {
    forall u | HasStatus(db, u, Queued) ::
      && db.tests[u].priority <= db.tests[t].priority
      && (db.tests[u].priority == db.tests[t].priority ==> db.tests[t].createdAt <= db.tests[u].createdAt)
      && (db.tests[u].priority == db.tests[t].priority && db.tests[u].createdAt == db.tests[t].createdAt ==> t <= u)
  }

  lemma NextIff(db: Db, t: int)
    ensures IsNext(db, t) <==> HasStatus(db, t, Queued) && NoneBefore(db, t)
  {
    if HasStatus(db, t, Queued) && NoneBefore(db, t) {
      forall u | u in db.tests && u != t && db.tests[u].status == Queued ensures Before(db, t, u) {
        assert HasStatus(db, u, Queued);
      }
    }
  }

  /** Promote's exact effect: nothing, or the first queued test starts running. */
  lemma PromoteEffect(db: Db) returns (t: int)
    ensures SomeTestIs(db, Running) || !SomeTestIs(db, Queued) ==> Promote(db) == db
    ensures !SomeTestIs(db, Running) && SomeTestIs(db, Queued) ==>
              IsNext(db, t) && Promote(db) == SetStatus(db, t, Running)
    ensures !SomeTestIs(db, Running) && SomeTestIs(db, Queued) ==> HasStatus(db, t, Queued) && NoneBefore(db, t)
  {
    t := 0;
    if !SomeTestIs(db, Running) && SomeTestIs(db, Queued) {
      SomeNext(db);
      t :| IsNext(db, t) && Promote(db) == SetStatus(db, t, Running);
      NextIff(db, t);
    } else if exists u :: IsNext(db, u) {
      var u :| IsNext(db, u);
      assert HasStatus(db, u, Queued);
    }
  }
}
