/** What a claim grants, column by column. */
module Claims {
  import opened Schema
  import opened Lifecycle
  import opened Queue
  import Keeps
  import Sets

  /** The term of a lease: six times the time both games may take at four sides of base and sixty increments,
      on a client so much slower, or the configured minimum if that is longer; no more than one of the two. */
  ghost predicate IsTerm(cfg: Config, test: Test, c: Client, seconds: real) {
    var factor := if c.cpuFactor.Some? then c.cpuFactor.value else 1.0;
    var milliseconds := 24.0 * (test.tcBaseMs + 60 * test.tcIncrementMs) as real * factor;
    && 1000.0 * seconds >= milliseconds && seconds >= cfg.leaseTtlMinSeconds
    && (1000.0 * seconds == milliseconds || seconds == cfg.leaseTtlMinSeconds)
  }

  lemma TermIs(cfg: Config, test: Test, c: Client)
    ensures IsTerm(cfg, test, c, LeaseSeconds(cfg, test, c))
  {
  }

  /** The rows of a claim: each was pending for the running test, and is leased to the client for its term
      with one attempt more; all other rows are as they were. */
  ghost predicate Grants(cfg: Config, db: Db, after: Db, client: int, picked: set<int>) {
    && after == db.(pairs := after.pairs) && after.pairs.Keys == db.pairs.Keys
    && (forall p | p in db.pairs && p !in picked :: after.pairs[p] == db.pairs[p])
    && forall p | p in picked ::
         && p in db.pairs && client in db.clients && HasStatus(db, db.pairs[p].test, Running)
         && Granted(cfg, db, db.pairs[p], after.pairs[p], client)
  }

  ghost predicate Granted(cfg: Config, db: Db, row: Pair, now: Pair, client: int)
    requires row.test in db.tests && client in db.clients
  {
    && row.status == Pending && now.status == Leased && now.leasedTo == Some(client) && now.attempts == row.attempts + 1
    && now.leaseExpiresAt.Some? && IsTerm(cfg, db.tests[row.test], db.clients[client], now.leaseExpiresAt.value - db.now)
    && now.test == row.test && now.position == row.position && now.dispatchOrder == row.dispatchOrder
  }

  lemma ClaimGrants(cfg: Config, db: Db, client: int, slotsFree: int, locked: set<int>, picked: set<int>)
    requires LegalPick(db, client, slotsFree, locked, picked)
    ensures Grants(cfg, db, Claim(cfg, db, client, picked), client, picked)
  {
    forall p | p in picked
      ensures p in db.pairs && client in db.clients && HasStatus(db, db.pairs[p].test, Running)
      ensures Granted(cfg, db, db.pairs[p], Claim(cfg, db, client, picked).pairs[p], client)
    {
      Keeps.PickedRows(db, client, slotsFree, locked, picked, p);
      TermIs(cfg, db.tests[db.pairs[p].test], db.clients[client]);
    }
  }

  /** The pair waits for a claim, and no other transaction has its row locked. */
  predicate Waits(db: Db, p: int, locked: set<int>) {
    p in db.pairs && db.pairs[p].status == Pending && HasStatus(db, db.pairs[p].test, Running) && p !in locked
  }

  /** No more rows than the client has free slots, or slots at all; fewer only if none is left, and never a
      later one before an earlier. None for an unknown or banned client, or while no test runs. */
  lemma ClaimIsLimited(db: Db, client: int, slotsFree: int, locked: set<int>, picked: set<int>)
    requires LegalPick(db, client, slotsFree, locked, picked)
    ensures picked != {} ==> client in db.clients && db.clients[client].status != Banned && SomeTestIs(db, Running)
    ensures picked != {} ==> |picked| <= slotsFree && |picked| <= db.clients[client].slots
    ensures client in db.clients && db.clients[client].status != Banned ==>
              forall p | Waits(db, p, locked) && p !in picked ::
                && (|picked| >= slotsFree || |picked| >= db.clients[client].slots)
                && forall q | q in picked :: q in db.pairs && db.pairs[q].dispatchOrder <= db.pairs[p].dispatchOrder
  {
    if client in db.clients && db.clients[client].status != Banned {
      forall p | Waits(db, p, locked) && p !in picked
        ensures |picked| >= slotsFree || |picked| >= db.clients[client].slots
        ensures forall q | q in picked :: q in db.pairs && db.pairs[q].dispatchOrder <= db.pairs[p].dispatchOrder
      {
        LeftBehind(db, client, slotsFree, locked, picked, db.pairs[p].test, p);
      }
    }
    if picked != {} {
      var t :| HasStatus(db, t, Running);
      assert IsPick(db, t, client, slotsFree, locked, picked);
    }
  }

  lemma LeftBehind(db: Db, client: int, slotsFree: int, locked: set<int>, picked: set<int>, t: int, p: int)
    requires KnownClient(db, client) && IsPick(db, t, client, slotsFree, locked, picked)
    requires Waits(db, p, locked) && db.pairs[p].test == t && p !in picked
    ensures |picked| >= slotsFree || |picked| >= db.clients[client].slots
    ensures forall q | q in picked :: q in db.pairs && db.pairs[q].dispatchOrder <= db.pairs[p].dispatchOrder
  {
    var available := Available(db, t, locked);
    assert p in available;
    Sets.SubsetSize(picked, available);
    assert p in available - picked;
  }
}
