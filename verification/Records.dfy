/** What is on record for a completed pair when submits interleave: one body that arrived for it, sent by
    the client on record, whatever the bodies are. */
module Records {
  import opened Schema
  import opened Queue
  import opened Invariants
  import opened Keeps
  import opened Transitions
  import opened ExactlyOnce
  import opened Endings
  import opened Concurrent
  import opened Interleaved

  /** What is known of a pair and a body that arrives for it. */
  type Known = (int, PairReport) -> bool

  ghost predicate Vouched(db: Db, p: int, report: PairReport, good: Known) {
    report.Valid() && good(p, report) && Recorded(db, p, report)
  }

  /** One such body is what is on record for the pair. */
  ghost predicate HasRecord(db: Db, p: int, good: Known) { exists report :: Vouched(db, p, report, good) }

  ghost predicate RecordedState(s: State, good: Known) {
    && (forall id | id in s.txs :: good(s.txs[id].pair, s.txs[id].report))
    && forall p | Done(s.db, p) :: HasRecord(s.db, p, good)
  }

  ghost predicate GoodStep(step: Step, good: Known) { step.Arrive? ==> good(step.pair, step.report) }

  ghost predicate GoodSteps(run: seq<Step>, good: Known) {
    forall n | 0 <= n < |run| :: GoodStep(run[n], good)
  }

  lemma RecordKept(db: Db, after: Db, p: int, good: Known)
    requires HasRecord(db, p, good) && p in after.pairs && after.pairs[p] == db.pairs[p] && GamesSame(db, after, p)
    ensures HasRecord(after, p, good)
  {
    var report :| Vouched(db, p, report, good);
    assert Vouched(after, p, report, good);
  }

  lemma ElsewhereRecords(cfg: Config, db: Db, a: Action, good: Known, p: int)
    requires Inv(cfg, Veil(db)) && Enabled(db, a) && !a.DoSubmit?
    requires Done(db, p) ==> HasRecord(db, p, good)
    ensures Done(Apply(cfg, db, a), p) ==> HasRecord(Apply(cfg, db, a), p, good)
  {
    EnvDone(cfg, db, a, p);
    if Done(db, p) {
      EnvPair(cfg, db, a, p);
      RecordKept(db, Apply(cfg, db, a), p, good);
    }
  }

  lemma OwnRecord(db: Db, after: Db, q: int, report: PairReport, good: Known)
    requires report.Valid() && InHand(db, q, report.client) && good(q, report)
    requires after.pairs == Insert(db, q, report).pairs && after.games == Insert(db, q, report).games
    ensures HasRecord(after, q, good)
  {
    assert Recorded(after, q, report);
    assert Vouched(after, q, report, good);
  }

  lemma OtherRecord(db: Db, after: Db, q: int, report: PairReport, good: Known, p: int)
    requires report.Valid() && q in db.pairs && p != q && Done(after, p)
    requires after.pairs == Insert(db, q, report).pairs && after.games == Insert(db, q, report).games
    requires Done(db, p) ==> HasRecord(db, p, good)
    ensures HasRecord(after, p, good)
  {
    InsertScores(db, q, report, p);
    RecordKept(db, after, p, good);
  }

  lemma CommitRecords(cfg: Config, db: Db, tx: Tx, after: Db, good: Known, p: int)
    requires TxOk(cfg, db, tx) && tx.phase.Computed? && good(tx.pair, tx.report) && after == Written(db, tx)
    requires Done(db, p) ==> HasRecord(db, p, good)
    ensures Done(after, p) ==> HasRecord(after, p, good)
  {
    CommitRows(cfg, db, tx);
    if p == tx.pair {
      OwnRecord(db, after, tx.pair, tx.report, good);
    } else if Done(after, p) {
      OtherRecord(db, after, tx.pair, tx.report, good, p);
    }
  }

  lemma StepRecords(cfg: Config, s: State, step: Step, good: Known, p: int)
    requires Ok(cfg, s) && StepEnabled(cfg, s, step) && RecordedState(s, good) && Done(Next(cfg, s, step).db, p)
    ensures HasRecord(Next(cfg, s, step).db, p, good)
  {
    if step.Elsewhere? {
      ElsewhereRecords(cfg, s.db, step.a, good, p);
    } else if step.Commit? {
      CommitRecords(cfg, s.db, s.txs[step.id], Next(cfg, s, step).db, good, p);
    }
  }

  /** A transaction in flight was there before with the same pair and report, or has just arrived. */
  lemma ReportKept(cfg: Config, s: State, step: Step, after: State, id: int)
    requires StepEnabled(cfg, s, step) && after == Next(cfg, s, step) && id in after.txs
    ensures var tx := after.txs[id];
            || (id in s.txs && tx.pair == s.txs[id].pair && tx.report == s.txs[id].report)
            || (step.Arrive? && tx.pair == step.pair && tx.report == step.report)
  {
    match step
    case Arrive(_, _, _) =>
    case LockPair(_) =>
    case LockTest(_) =>
    case Compute(_) =>
    case Commit(i) => assert after.txs == s.txs - {i};
    case Leave(i) => assert after.txs == s.txs - {i};
    case Elsewhere(_) => assert after.txs == s.txs;
  }

  lemma StepStaysRecorded(cfg: Config, s: State, step: Step, good: Known)
    requires Ok(cfg, s) && StepEnabled(cfg, s, step) && RecordedState(s, good) && GoodStep(step, good)
    ensures RecordedState(Next(cfg, s, step), good)
  {
    var after := Next(cfg, s, step);
    forall id | id in after.txs ensures good(after.txs[id].pair, after.txs[id].report) {
      ReportKept(cfg, s, step, after, id);
    }
    forall p | Done(after.db, p) ensures HasRecord(after.db, p, good) {
      StepRecords(cfg, s, step, good, p);
    }
  }

  lemma {:induction false} RunStaysRecorded(cfg: Config, s: State, run: seq<Step>, good: Known)
    requires Ok(cfg, s) && LegalSteps(cfg, s, run) && RecordedState(s, good) && GoodSteps(run, good)
    ensures RecordedState(AfterSteps(cfg, s, run), good)
    decreases |run|
  {
    if run != [] {
      assert GoodStep(run[0], good);
      assert forall n | 0 <= n < |run[1..]| :: run[1..][n] == run[n + 1];
      StepKeeps(cfg, s, run[0]);
      StepStaysRecorded(cfg, s, run[0], good);
      RunStaysRecorded(cfg, Next(cfg, s, run[0]), run[1..], good);
    }
  }

  lemma StartOk(cfg: Config)
    ensures Ok(cfg, START)
  {
    assert LegalSteps(cfg, START, []) && AfterSteps(cfg, START, []) == START;
    ReachableOk(cfg, START);
  }

  /** Whatever is known of all bodies that arrive is true of the body on record. */
  lemma RecordIsGood(cfg: Config, run: seq<Step>, good: Known, p: int) returns (report: PairReport)
    requires LegalSteps(cfg, START, run) && GoodSteps(run, good) && Done(AfterSteps(cfg, START, run).db, p)
    ensures Vouched(AfterSteps(cfg, START, run).db, p, report, good)
  {
    StartOk(cfg);
    RunStaysRecorded(cfg, START, run, good);
    report :| Vouched(AfterSteps(cfg, START, run).db, p, report, good);
  }

  /** The submit that arrives in step n is for pair p. */
  predicate ArrivesAt(run: seq<Step>, n: nat, p: int, report: PairReport) {
    n < |run| && run[n].Arrive? && run[n].pair == p && run[n].report == report
  }

  ghost predicate HasArrived(run: seq<Step>, p: int, report: PairReport) { exists n :: ArrivesAt(run, n, p, report) }

  /** Both games of a completed pair come from one body that arrived for this pair, and the client on
      record sent it, however submits interleave. */
  lemma CompletedByOneArrival(cfg: Config, run: seq<Step>, p: int) returns (n: nat, report: PairReport)
    requires LegalSteps(cfg, START, run) && Done(AfterSteps(cfg, START, run).db, p)
    ensures ArrivesAt(run, n, p, report) && report.Valid() && Recorded(AfterSteps(cfg, START, run).db, p, report)
  {
    ghost var good := (q: int, body: PairReport) => HasArrived(run, q, body);
    forall k | 0 <= k < |run| ensures GoodStep(run[k], good) {
      if run[k].Arrive? {
        assert ArrivesAt(run, k, run[k].pair, run[k].report);
      }
    }
    report := RecordIsGood(cfg, run, good, p);
    n :| ArrivesAt(run, n, p, report);
  }
}
