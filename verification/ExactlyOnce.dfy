/** Results over an at-least-once channel: requests may be lost, delayed, repeated and reordered,
    so a run may hold any submit any number of times. */
module ExactlyOnce {
  import opened Schema
  import opened Outcomes
  import opened Lifecycle
  import opened Queue
  import opened Invariants
  import opened Keeps
  import opened Runs
  import opened Transitions

  predicate Done(db: Db, p: int) { p in db.pairs && db.pairs[p].status == Completed }

  ghost function AcceptedCount(cfg: Config, db: Db, run: seq<Action>, p: int): nat
    requires Legal(cfg, db, run)
    decreases |run|
  {
    if run == [] then 0
    else (if IsAccepted(cfg, db, run[0], p) then 1 else 0)
         + AcceptedCount(cfg, Apply(cfg, db, run[0]), run[1..], p)
  }

  predicate Fresh(row: Pair) { row.status == Pending && row.attempts == 0 && row.leasedTo.None? }

  /** Only the smoke worker's commit adds pairs. */
  lemma SameKeys(cfg: Config, db: Db, a: Action)
    requires Enabled(db, a) && !a.DoSmokeCommit?
    ensures Apply(cfg, db, a).pairs.Keys == db.pairs.Keys
  {
    match a
    case DoStop(u) => StopSameRows(db, u);
    case DoPromote => PromoteSteps(db);
    case DoSubmit(q, report) =>
      if SubmitGuard(db, q, report.client) == AcceptedResult && Refresh(cfg, Insert(db, q, report), db.pairs[q].test).Some? {
        RefreshSamePairs(cfg, Insert(db, q, report), db.pairs[q].test);
      }
    case DoRecover(locked) =>
      var ts, mid := TestsWithDiscards(cfg, db, locked), RecoverRows(cfg, db, locked);
      if RefreshAll(cfg, mid, ts).Some? {
        RefreshAllSamePairs(cfg, mid, ts);
      }
    case _ =>
  }

  /** The smoke worker's commit adds nothing, or the new pairs of WithPairs. */
  lemma SmokePairs(cfg: Config, db: Db, u: int, built: bool, orders: seq<real>)
    ensures var after := SmokeCommit(cfg, db, u, built, orders).pairs;
            after == db.pairs || (HasStatus(db, u, Validating) && |orders| >= db.tests[u].totalPairs && after == WithPairs(db, u, orders).pairs)
  {
    if HasStatus(db, u, Validating) && built && |orders| >= db.tests[u].totalPairs {
      var queued := WithPairs(db, u, orders);
      if Refresh(cfg, queued, u).Some? {
        RefreshSamePairs(cfg, queued, u);
        PromoteSteps(Refresh(cfg, queued, u).value);
      }
    }
  }

  /** A pair enters the table pending, before any attempt. */
  lemma NewPairsAreFresh(cfg: Config, db: Db, a: Action, p: int)
    requires Enabled(db, a) && p !in db.pairs && p in Apply(cfg, db, a).pairs
    ensures Fresh(Apply(cfg, db, a).pairs[p])
  {
    if a.DoSmokeCommit? {
      SmokePairs(cfg, db, a.test, a.built, a.orders);
    } else {
      assert p in Apply(cfg, db, a).pairs.Keys;
      SameKeys(cfg, db, a);
    }
  }

  /** A pair becomes complete exactly by an accepted submit, and stays complete. */
  lemma DoneStep(cfg: Config, db: Db, a: Action, p: int)
    requires Shape(db) && Enabled(db, a)
    ensures Done(Apply(cfg, db, a), p) <==> Done(db, p) || IsAccepted(cfg, db, a, p)
    ensures IsAccepted(cfg, db, a, p) ==> !Done(db, p)
  {
    if p in db.pairs {
      ApplyMove(cfg, db, a, p);
    } else if p in Apply(cfg, db, a).pairs {
      NewPairsAreFresh(cfg, db, a, p);
    }
  }

  /** Each pair is accepted at most once, however its result is sent: once if the run completes it
      and not at all otherwise. */
  lemma {:induction false} AcceptedAtMostOnce(cfg: Config, db: Db, run: seq<Action>, p: int)
    requires Inv(cfg, db) && Legal(cfg, db, run)
    ensures AcceptedCount(cfg, db, run, p) == if Done(After(cfg, db, run), p) && !Done(db, p) then 1 else 0
    ensures Done(db, p) ==> Done(After(cfg, db, run), p)
    decreases |run|
  {
    if run != [] {
      DoneStep(cfg, db, run[0], p);
      ApplyKeeps(cfg, db, run[0]);
      AcceptedAtMostOnce(cfg, Apply(cfg, db, run[0]), run[1..], p);
    }
  }

  /** The pair's two games are report's, with check_pair's verdicts, and its holder sent them. */
  ghost predicate Recorded(db: Db, p: int, report: PairReport)
    requires report.Valid()
  {
    && Done(db, p) && Holds(db.pairs[p], report.client)
    && Row(db, p, 0) == Some(GameRow(db.pairs[p].test, report, 0))
    && Row(db, p, 1) == Some(GameRow(db.pairs[p].test, report, 1))
  }

  /** Step n of the run is the submit of report for pair p that the server accepted. */
  ghost predicate AcceptedAt(cfg: Config, db: Db, run: seq<Action>, n: nat, p: int, report: PairReport) {
    && n < |run| && run[n] == DoSubmit(p, report) && report.Valid()
    && Legal(cfg, db, run[..n])
    && Submit(cfg, After(cfg, db, run[..n]), p, report).1 == AcceptedResult
  }

  lemma RecordedStays(cfg: Config, db: Db, a: Action, p: int, report: PairReport)
    requires Shape(db) && Enabled(db, a) && report.Valid() && Recorded(db, p, report)
    ensures Recorded(Apply(cfg, db, a), p, report)
  {
    ApplyMove(cfg, db, a, p);
  }

  lemma {:induction false} RecordedForever(cfg: Config, db: Db, run: seq<Action>, p: int, report: PairReport)
    requires Inv(cfg, db) && Legal(cfg, db, run) && report.Valid() && Recorded(db, p, report)
    ensures Recorded(After(cfg, db, run), p, report)
    decreases |run|
  {
    if run != [] {
      RecordedStays(cfg, db, run[0], p, report);
      ApplyKeeps(cfg, db, run[0]);
      RecordedForever(cfg, Apply(cfg, db, run[0]), run[1..], p, report);
    }
  }

  lemma AcceptedIsRecorded(cfg: Config, db: Db, a: Action, p: int)
    requires Shape(db) && Enabled(db, a) && IsAccepted(cfg, db, a, p)
    ensures Recorded(Apply(cfg, db, a), p, a.report)
  {
    ApplyMove(cfg, db, a, p);
  }

  lemma AcceptedFirst(cfg: Config, db: Db, run: seq<Action>, p: int)
    requires Legal(cfg, db, run) && run != [] && IsAccepted(cfg, db, run[0], p)
    ensures AcceptedAt(cfg, db, run, 0, p, run[0].report)
  {
    assert run[..0] == [];
  }

  lemma AfterLater(cfg: Config, db: Db, run: seq<Action>, m: nat)
    requires Legal(cfg, db, run) && m < |run|
    requires Legal(cfg, Apply(cfg, db, run[0]), run[1..][..m])
    ensures Legal(cfg, db, run[..m + 1])
    ensures After(cfg, db, run[..m + 1]) == After(cfg, Apply(cfg, db, run[0]), run[1..][..m])
  {
    assert run[..m + 1][1..] == run[1..][..m];
    assert run[..m + 1][0] == run[0];
  }

  lemma AcceptedLater(cfg: Config, db: Db, run: seq<Action>, m: nat, p: int, report: PairReport)
    requires Legal(cfg, db, run) && run != []
    requires AcceptedAt(cfg, Apply(cfg, db, run[0]), run[1..], m, p, report)
    ensures AcceptedAt(cfg, db, run, m + 1, p, report)
  {
    AfterLater(cfg, db, run, m);
  }

  /** A pair the run completed holds games 0 and 1 of one body, the one its recorded holder sent in
      the submit that was accepted. */
  lemma {:induction false} CompletedByOneBody(cfg: Config, db: Db, run: seq<Action>, p: int) returns (n: nat, report: PairReport)
    requires Inv(cfg, db) && Legal(cfg, db, run)
    requires Done(After(cfg, db, run), p) && !Done(db, p)
    ensures AcceptedAt(cfg, db, run, n, p, report) && Recorded(After(cfg, db, run), p, report)
    decreases |run|
  {
    var a := run[0];
    DoneStep(cfg, db, a, p);
    ApplyKeeps(cfg, db, a);
    if IsAccepted(cfg, db, a, p) {
      n, report := 0, a.report;
      AcceptedIsRecorded(cfg, db, a, p);
      AcceptedFirst(cfg, db, run, p);
      RecordedForever(cfg, Apply(cfg, db, a), run[1..], p, report);
    } else {
      var m;
      m, report := CompletedByOneBody(cfg, Apply(cfg, db, a), run[1..], p);
      n := m + 1;
      AcceptedLater(cfg, db, run, m, p, report);
    }
  }

  /** What the server once accepted stays recorded. */
  lemma {:induction false} AcceptedStaysRecorded(cfg: Config, db: Db, run: seq<Action>, n: nat, p: int, report: PairReport)
    requires Inv(cfg, db) && Legal(cfg, db, run) && AcceptedAt(cfg, db, run, n, p, report)
    ensures Recorded(After(cfg, db, run), p, report)
    decreases |run|
  {
    ApplyKeeps(cfg, db, run[0]);
    if n == 0 {
      assert run[..0] == [];
      AcceptedIsRecorded(cfg, db, run[0], p);
      RecordedForever(cfg, Apply(cfg, db, run[0]), run[1..], p, report);
    } else {
      AcceptedEarlier(cfg, db, run, n, p, report);
      AcceptedStaysRecorded(cfg, Apply(cfg, db, run[0]), run[1..], n - 1, p, report);
    }
  }

  lemma AcceptedEarlier(cfg: Config, db: Db, run: seq<Action>, n: nat, p: int, report: PairReport)
    requires Legal(cfg, db, run) && n > 0 && AcceptedAt(cfg, db, run, n, p, report)
    ensures AcceptedAt(cfg, Apply(cfg, db, run[0]), run[1..], n - 1, p, report)
  {
    assert run[..n][0] == run[0] && run[..n][1..] == run[1..][..n - 1];
  }

  /** A repeat by the client that completed the pair is answered AlreadyCompleted and changes
      nothing, at any later time and whatever became of the test, unless the client is banned. */
  lemma RepeatsAreHarmless(cfg: Config, db: Db, run: seq<Action>, p: int, first: PairReport, again: PairReport)
    requires Inv(cfg, db) && Legal(cfg, db, run)
    requires first.Valid() && Recorded(db, p, first)
    requires again.Valid() && again.client == first.client
    ensures again.client in After(cfg, db, run).clients
    ensures var end := After(cfg, db, run);
            Submit(cfg, end, p, again) == (end, if end.clients[again.client].status == Banned then ClientBanned else AlreadyCompleted)
  {
    RecordedForever(cfg, db, run, p, first);
    RunKeeps(cfg, db, run);
    var end := After(cfg, db, run);
    assert RowOk(end, end.pairs[p]);
  }
}
