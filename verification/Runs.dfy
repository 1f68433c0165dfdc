/** Runs: any sequence of enabled transactions from the empty database. */
module Runs {
  import opened Schema
  import opened Queue
  import opened Invariants
  import opened Keeps

  ghost function After(cfg: Config, db: Db, run: seq<Action>): Db
    requires Legal(cfg, db, run)
    decreases |run|
  {
    if run == [] then db else After(cfg, Apply(cfg, db, run[0]), run[1..])
  }

  ghost predicate Legal(cfg: Config, db: Db, run: seq<Action>)
    decreases |run|
  {
    run == [] || (Enabled(db, run[0]) && Legal(cfg, Apply(cfg, db, run[0]), run[1..]))
  }

  lemma UpdateKeepsNames(clients: map<int, Client>, c: int, row: Client)
    requires NamesUnique(clients) && c in clients && row.name == clients[c].name
    ensures NamesUnique(clients[c := row])
  {
  }

  lemma NewKeepsNames(clients: map<int, Client>, c: int, row: Client)
    requires NamesUnique(clients) && ClientNamed(clients, row.name).None?
    ensures NamesUnique(clients[c := row])
  {
    assert forall d | d in clients :: !NameTaken(clients, row.name, d);
  }

  lemma RegisterNames(db: Db, name: string, slots: nat)
    requires NamesUnique(db.clients)
    ensures NamesUnique(Register(db, name, slots).clients)
  {
    match ClientNamed(db.clients, name)
    case Some(c) => UpdateKeepsNames(db.clients, c, Wake(db.clients[c]).(slots := slots));
    case None => NewKeepsNames(db.clients, db.nextClient, Client(name, slots, None, Active));
  }

  lemma RegisterChange(db: Db, name: string, slots: nat)
    requires PairsOk(db)
    ensures PeopleChange(db, Register(db, name, slots))
  {
    RegisterNames(db, name, slots);
  }

  lemma UpdateChange(db: Db, c: int, row: Client)
    requires PairsOk(db) && c in db.clients && row.name == db.clients[c].name
    ensures PeopleChange(db, db.(clients := db.clients[c := row]))
  {
    UpdateKeepsNames(db.clients, c, row);
  }

  lemma PeopleStepKeeps(cfg: Config, db: Db, a: Action)
    requires Inv(cfg, db) && Enabled(db, a)
    requires a.DoTick? || a.DoRegister? || a.DoHeartbeat? || a.DoBan?
    ensures Inv(cfg, Apply(cfg, db, a))
  {
    var after := Apply(cfg, db, a);
    if a.DoRegister? {
      RegisterChange(db, a.name, a.slots);
    } else if !a.DoTick? && a.client in db.clients {
      UpdateChange(db, a.client, after.clients[a.client]);
    }
    PeopleChangeKeeps(cfg, db, after);
  }

  lemma ApplyKeeps(cfg: Config, db: Db, a: Action)
    requires Inv(cfg, db) && Enabled(db, a)
    ensures Inv(cfg, Apply(cfg, db, a))
  {
    match a
    case DoInsertTest(kind, totalPairs, rank, baseMs, incMs) => InsertTestKeeps(cfg, db, kind, totalPairs, rank, baseMs, incMs);
    case DoSetPriority(t, rank) => SetPriorityKeeps(cfg, db, t, rank);
    case DoStop(t) => StopKeeps(cfg, db, t);
    case DoSmokeCommit(t, built, orders) => SmokeCommitKeeps(cfg, db, t, built, orders);
    case DoClaim(client, slotsFree, locked, picked) => ClaimKeeps(cfg, db, client, slotsFree, locked, picked);
    case DoSubmit(p, report) => SubmitKeeps(cfg, db, p, report);
    case DoAbandon(p, client) => AbandonKeeps(cfg, db, p, client);
    case DoRecover(locked) => RecoverKeeps(cfg, db, locked);
    case DoPromote => PromoteKeeps(cfg, db, {});
    case _ => PeopleStepKeeps(cfg, db, a);
  }

  lemma {:induction false} RunKeeps(cfg: Config, db: Db, run: seq<Action>)
    requires Inv(cfg, db) && Legal(cfg, db, run)
    ensures Inv(cfg, After(cfg, db, run))
    decreases |run|
  {
    if run != [] {
      ApplyKeeps(cfg, db, run[0]);
      RunKeeps(cfg, Apply(cfg, db, run[0]), run[1..]);
    }
  }

  lemma EmptyInv(cfg: Config)
    ensures Inv(cfg, EMPTY_DB)
  {
  }

  /** One run after another. */
  lemma {:induction false} AppendRun(cfg: Config, db: Db, first: seq<Action>, second: seq<Action>)
    requires Legal(cfg, db, first) && Legal(cfg, After(cfg, db, first), second)
    ensures Legal(cfg, db, first + second)
    ensures After(cfg, db, first + second) == After(cfg, After(cfg, db, first), second)
    decreases |first|
  {
    if first == [] {
      assert first + second == second;
    } else {
      assert (first + second)[1..] == first[1..] + second;
      AppendRun(cfg, Apply(cfg, db, first[0]), first[1..], second);
    }
  }
}
