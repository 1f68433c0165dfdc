/** How much work a test can cause when submits interleave: the same budget as for transactions run one
    at a time, spent by the steps. */
module InterleavedLeases {
  import opened Schema
  import opened Lifecycle
  import opened Queue
  import opened Invariants
  import opened Endings
  import opened Concurrent
  import opened Interleaved
  import Leases
  import Records
  import Sets

  /** The pairs of test t that the step moves: leases granted, results committed and leases recovered. */
  ghost function StepMoved(cfg: Config, s: State, step: Step, t: int): set<int>
    requires StepEnabled(cfg, s, step)
  {
    var after := Next(cfg, s, step).db;
    set p | p in Owned(s.db, t) && p in after.pairs && after.pairs[p] != s.db.pairs[p] && !(step.Elsewhere? && step.a.DoAbandon?)
  }

  ghost function StepSpent(cfg: Config, s: State, step: Step, t: int, all: bool): set<int>
    requires StepEnabled(cfg, s, step)
  {
    if all || (step.Elsewhere? && step.a.DoClaim?) then StepMoved(cfg, s, step, t) else {}
  }

  ghost function StepGivenBack(cfg: Config, s: State, step: Step, t: int): set<int>
    requires StepEnabled(cfg, s, step)
  {
    if step.Elsewhere? then Leases.GivenBack(cfg, s.db, step.a, t) else {}
  }

  ghost function StepsSpent(cfg: Config, s: State, run: seq<Step>, t: int, all: bool): nat
    requires LegalSteps(cfg, s, run)
    decreases |run|
  {
    if run == [] then 0
    else |StepSpent(cfg, s, run[0], t, all)| + StepsSpent(cfg, Next(cfg, s, run[0]), run[1..], t, all)
  }

  ghost function StepsGivenBack(cfg: Config, s: State, run: seq<Step>, t: int): nat
    requires LegalSteps(cfg, s, run)
    decreases |run|
  {
    if run == [] then 0
    else |StepGivenBack(cfg, s, run[0], t)| + StepsGivenBack(cfg, Next(cfg, s, run[0]), run[1..], t)
  }

  // ---------------------------------------------------------------------------
  // One step
  // ---------------------------------------------------------------------------

  /** The step keeps the size of test t and pays for its moves. */
  ghost predicate Pays(cfg: Config, s: State, step: Step, t: int, all: bool)
    requires StepEnabled(cfg, s, step) && t in s.db.tests
  {
    var after := Next(cfg, s, step).db;
    && t in after.tests && after.tests[t].totalPairs == s.db.tests[t].totalPairs
    && Leases.Budget(cfg, after, t, all) + |StepSpent(cfg, s, step, t, all)|
       <= Leases.Budget(cfg, s.db, t, all) + |StepGivenBack(cfg, s, step, t)|
  }

  lemma SamePotential(cfg: Config, x: Db, y: Db, t: int, all: bool)
    requires x.pairs == y.pairs
    ensures Owned(x, t) == Owned(y, t) && Leases.Potential(cfg, x, t, all) == Leases.Potential(cfg, y, t, all)
  {
    assert Owned(x, t) == Owned(y, t);
    Sets.SumLe(Owned(x, t), p => Leases.PotentialOf(cfg, x, all, p), p => Leases.PotentialOf(cfg, y, all, p));
    Sets.SumLe(Owned(x, t), p => Leases.PotentialOf(cfg, y, all, p), p => Leases.PotentialOf(cfg, x, all, p));
  }

  lemma SameBudget(cfg: Config, x: Db, y: Db, t: int, all: bool)
    requires x.pairs == y.pairs && t in x.tests && t in y.tests && x.tests[t].totalPairs == y.tests[t].totalPairs
    ensures Leases.Budget(cfg, x, t, all) == Leases.Budget(cfg, y, t, all)
  {
    SamePotential(cfg, x, y, t, all);
  }

  lemma VeiledSizes(cfg: Config, db: Db, a: Action)
    requires Shape(Veil(db)) && Enabled(db, a) && !a.DoSubmit?
    ensures Enabled(Veil(db), a)
    ensures var x, y := Apply(cfg, db, a), Apply(cfg, Veil(db), a);
            x.tests.Keys == y.tests.Keys && forall t | t in x.tests :: x.tests[t].totalPairs == y.tests[t].totalPairs
  {
    VeilAlike(db);
    ApplyAlike(cfg, db, Veil(db), a);
  }

  lemma SameSpending(cfg: Config, s: State, a: Action, t: int, all: bool)
    requires Inv(cfg, Veil(s.db)) && StepEnabled(cfg, s, Elsewhere(a))
    ensures Enabled(Veil(s.db), a)
    ensures StepSpent(cfg, s, Elsewhere(a), t, all) == Leases.Spent(cfg, Veil(s.db), a, t, all)
    ensures StepGivenBack(cfg, s, Elsewhere(a), t) == Leases.GivenBack(cfg, Veil(s.db), a, t)
  {
    VeiledApply(cfg, s.db, a);
  }

  lemma ElsewherePays(cfg: Config, s: State, a: Action, t: int, all: bool)
    requires Inv(cfg, Veil(s.db)) && StepEnabled(cfg, s, Elsewhere(a)) && t in s.db.tests && cfg.maxAttempts >= 1
    ensures Pays(cfg, s, Elsewhere(a), t, all)
  {
    var db, veiled := s.db, Veil(s.db);
    SameSpending(cfg, s, a, t, all);
    VeiledApply(cfg, db, a);
    VeiledSizes(cfg, db, a);
    Leases.BudgetStep(cfg, veiled, a, t, all);
    Leases.SizeStep(cfg, veiled, a, t);
    SameBudget(cfg, db, veiled, t, all);
    SameBudget(cfg, Apply(cfg, db, a), Apply(cfg, veiled, a), t, all);
  }

  lemma CommitSizes(cfg: Config, db: Db, tx: Tx)
    requires TxOk(cfg, db, tx) && tx.phase.Computed?
    ensures Leases.SizesKept(db, Written(db, tx))
    ensures Written(db, tx).pairs == db.pairs[tx.pair := db.pairs[tx.pair].(status := Completed)]
  {
    CommitIsRefresh(cfg, db, tx);
    CommitRows(cfg, db, tx);
    Leases.RefreshSizes(cfg, Own(db, tx), db.pairs[tx.pair].test);
  }

  lemma CommitPays(cfg: Config, s: State, id: int, t: int, all: bool)
    requires StepEnabled(cfg, s, Commit(id)) && TxOk(cfg, s.db, s.txs[id]) && t in s.db.tests
    ensures Pays(cfg, s, Commit(id), t, all)
  {
    var db, after, p := s.db, Next(cfg, s, Commit(id)).db, s.txs[id].pair;
    CommitSizes(cfg, db, s.txs[id]);
    assert Owned(after, t) == Owned(db, t);
    var spent := StepSpent(cfg, s, Commit(id), t, all);
    assert spent <= {p} && db.pairs[p].status == Leased;
    Sets.SumStep(Owned(db, t), spent, {}, q => Leases.PotentialOf(cfg, db, all, q), q => Leases.PotentialOf(cfg, after, all, q));
  }

  lemma StepPays(cfg: Config, s: State, step: Step, t: int, all: bool)
    requires Ok(cfg, s) && StepEnabled(cfg, s, step) && t in s.db.tests && cfg.maxAttempts >= 1
    ensures Pays(cfg, s, step, t, all)
  {
    if step.Elsewhere? {
      ElsewherePays(cfg, s, step.a, t, all);
    } else if step.Commit? {
      CommitPays(cfg, s, step.id, t, all);
    } else {
      assert StepMoved(cfg, s, step, t) == {};
    }
  }

  // ---------------------------------------------------------------------------
  // Whole runs
  // ---------------------------------------------------------------------------

  lemma {:induction false} RunPays(cfg: Config, s: State, run: seq<Step>, t: int, all: bool)
    requires Ok(cfg, s) && LegalSteps(cfg, s, run) && t in s.db.tests && cfg.maxAttempts >= 1
    ensures var end := AfterSteps(cfg, s, run).db;
            && t in end.tests && end.tests[t].totalPairs == s.db.tests[t].totalPairs
            && Leases.Budget(cfg, end, t, all) + StepsSpent(cfg, s, run, t, all)
               <= Leases.Budget(cfg, s.db, t, all) + StepsGivenBack(cfg, s, run, t)
    decreases |run|
  {
    if run != [] {
      StepPays(cfg, s, run[0], t, all);
      StepKeeps(cfg, s, run[0]);
      RunPays(cfg, Next(cfg, s, run[0]), run[1..], t, all);
    }
  }

  lemma NothingOwned(cfg: Config, db: Db, t: int)
    requires Inv(cfg, Veil(db)) && t !in db.tests
    ensures Owned(db, t) == {}
  {
    Leases.NoPairsOf(Veil(db), t);
    assert Owned(db, t) == Owned(Veil(db), t);
  }

  lemma StepBirth(cfg: Config, s: State, step: Step, t: int, all: bool)
    requires Ok(cfg, s) && StepEnabled(cfg, s, step) && t !in s.db.tests
    ensures StepSpent(cfg, s, step, t, all) == {} && StepGivenBack(cfg, s, step, t) == {}
    ensures t in Next(cfg, s, step).db.tests ==> Owned(Next(cfg, s, step).db, t) == {}
  {
    NothingOwned(cfg, s.db, t);
    if step.Elsewhere? && t in Next(cfg, s, step).db.tests {
      VeiledApply(cfg, s.db, step.a);
      VeiledSizes(cfg, s.db, step.a);
      Leases.BornEmpty(cfg, Veil(s.db), step.a, t);
      assert Owned(Next(cfg, s, step).db, t) == Owned(Apply(cfg, Veil(s.db), step.a), t);
    } else if step.Commit? {
      assert TxOk(cfg, s.db, s.txs[step.id]);
      CommitSizes(cfg, s.db, s.txs[step.id]);
    }
  }

  lemma {:induction false} RunPaysFromBirth(cfg: Config, s: State, run: seq<Step>, t: int, all: bool)
    requires Ok(cfg, s) && LegalSteps(cfg, s, run) && t !in s.db.tests && cfg.maxAttempts >= 1
    ensures var end := AfterSteps(cfg, s, run).db;
            if t in end.tests then
              Leases.Budget(cfg, end, t, all) + StepsSpent(cfg, s, run, t, all)
              <= (if all then 2 else 1) * end.tests[t].totalPairs * cfg.maxAttempts + StepsGivenBack(cfg, s, run, t)
            else StepsSpent(cfg, s, run, t, all) == 0
    decreases |run|
  {
    if run != [] {
      var next := Next(cfg, s, run[0]);
      StepKeeps(cfg, s, run[0]);
      StepBirth(cfg, s, run[0], t, all);
      if t in next.db.tests {
        RunPays(cfg, next, run[1..], t, all);
      } else {
        RunPaysFromBirth(cfg, next, run[1..], t, all);
      }
    }
  }

  /** In any interleaving a test is granted at most total_pairs * max_attempts leases, plus one for each
      lease a client gave back. */
  lemma LeasesAreBounded(cfg: Config, run: seq<Step>, t: int)
    requires cfg.maxAttempts >= 1 && LegalSteps(cfg, START, run) && t in AfterSteps(cfg, START, run).db.tests
    ensures StepsSpent(cfg, START, run, t, false)
         <= AfterSteps(cfg, START, run).db.tests[t].totalPairs * cfg.maxAttempts + StepsGivenBack(cfg, START, run, t)
  {
    Records.StartOk(cfg);
    RunPaysFromBirth(cfg, START, run, t, false);
    Leases.BudgetNonnegative(cfg, AfterSteps(cfg, START, run).db, t, false);
  }

  /** Leases granted, results committed and leases recovered together spend at most twice that, and a test
      that has spent it all no longer runs. */
  lemma RunningTestsEnd(cfg: Config, run: seq<Step>, t: int)
    requires cfg.maxAttempts >= 1 && LegalSteps(cfg, START, run) && t in AfterSteps(cfg, START, run).db.tests
    ensures var end := AfterSteps(cfg, START, run).db;
            var spent, limit := StepsSpent(cfg, START, run, t, true),
                                2 * end.tests[t].totalPairs * cfg.maxAttempts + StepsGivenBack(cfg, START, run, t);
            spent <= limit && (spent == limit ==> end.tests[t].status != Running)
  {
    var end := AfterSteps(cfg, START, run);
    Records.StartOk(cfg);
    RunPaysFromBirth(cfg, START, run, t, true);
    Leases.BudgetNonnegative(cfg, end.db, t, true);
    if HasStatus(end.db, t, Running) {
      SchedulerStaysSafe(cfg, end);
      var p :| IsLive(end.db, p, t);
      assert p in Owned(end.db, t);
      Leases.PotentialAtLeast(cfg, end.db, t, true, p);
    }
  }

  ghost function PairGivenBack(cfg: Config, s: State, run: seq<Step>, p: int): nat
    requires LegalSteps(cfg, s, run)
    decreases |run|
  {
    if run == [] then 0
    else (if run[0].Elsewhere? && Leases.Returns(s.db, run[0].a, p) then 1 else 0)
         + PairGivenBack(cfg, Next(cfg, s, run[0]), run[1..], p)
  }

  lemma StepAttempts(cfg: Config, s: State, step: Step, p: int, k: nat)
    requires Ok(cfg, s) && StepEnabled(cfg, s, step) && cfg.maxAttempts >= 1 && Leases.AttemptsWithin(cfg, s.db, p, k)
    ensures var own := if step.Elsewhere? && Leases.Returns(s.db, step.a, p) then 1 else 0;
            Leases.AttemptsWithin(cfg, Next(cfg, s, step).db, p, k + own)
  {
    if step.Elsewhere? {
      VeiledApply(cfg, s.db, step.a);
      Leases.AttemptsStep(cfg, Veil(s.db), step.a, p, k);
    } else if step.Commit? {
      assert TxOk(cfg, s.db, s.txs[step.id]);
      CommitSizes(cfg, s.db, s.txs[step.id]);
    }
  }

  lemma {:induction false} RunAttempts(cfg: Config, s: State, run: seq<Step>, p: int, k: nat)
    requires Ok(cfg, s) && LegalSteps(cfg, s, run) && cfg.maxAttempts >= 1 && Leases.AttemptsWithin(cfg, s.db, p, k)
    ensures Leases.AttemptsWithin(cfg, AfterSteps(cfg, s, run).db, p, k + PairGivenBack(cfg, s, run, p))
    decreases |run|
  {
    if run != [] {
      StepAttempts(cfg, s, run[0], p, k);
      StepKeeps(cfg, s, run[0]);
      RunAttempts(cfg, Next(cfg, s, run[0]), run[1..], p, k + if run[0].Elsewhere? && Leases.Returns(s.db, run[0].a, p) then 1 else 0);
    }
  }

  /** A pair's attempts never exceed max_attempts plus its own abandons, in any interleaving. */
  lemma AttemptsAreBounded(cfg: Config, run: seq<Step>, p: int)
    requires cfg.maxAttempts >= 1 && LegalSteps(cfg, START, run) && p in AfterSteps(cfg, START, run).db.pairs
    ensures AfterSteps(cfg, START, run).db.pairs[p].attempts <= cfg.maxAttempts + PairGivenBack(cfg, START, run, p)
  {
    Records.StartOk(cfg);
    RunAttempts(cfg, START, run, p, 0);
  }
}
