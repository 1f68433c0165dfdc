/** When submit_result gives which answer, in terms of the rows it reads. */
module Answers {
  import opened Schema
  import opened Queue
  import opened Concurrent

  /** The client is registered and not banned. */
  predicate Welcome(db: Db, client: int) { client in db.clients && db.clients[client].status != Banned }

  /** The pair is complete, and the client is its recorded holder. */
  predicate Delivered(db: Db, p: int, client: int) {
    p in db.pairs && db.pairs[p].status == Completed && db.pairs[p].leasedTo == Some(client)
  }

  predicate RunsNow(db: Db, p: int) {
    p in db.pairs && db.pairs[p].test in db.tests && db.tests[db.pairs[p].test].status == Running
  }

  predicate LeasedTo(db: Db, p: int, client: int) {
    p in db.pairs && db.pairs[p].status == Leased && db.pairs[p].leasedTo == Some(client)
  }

  /** Each answer of the guard, exactly. An unknown pair comes before an unknown client, a ban before anything
      about the pair, the client's own finished pair before the end of its test, and that before a lost lease. */
  lemma GuardIs(db: Db, p: int, client: int)
    ensures var answer := SubmitGuard(db, p, client);
            && (answer == PairNotFound <==> p !in db.pairs)
            && (answer == UnknownClient <==> p in db.pairs && client !in db.clients)
            && (answer == ClientBanned <==> p in db.pairs && client in db.clients && db.clients[client].status == Banned)
            && (answer == AlreadyCompleted <==> Welcome(db, client) && Delivered(db, p, client))
            && (answer == TestFinished <==> p in db.pairs && Welcome(db, client) && !Delivered(db, p, client) && !RunsNow(db, p))
            && (answer == LeaseLost <==>
                  p in db.pairs && Welcome(db, client) && !Delivered(db, p, client) && RunsNow(db, p) && !LeasedTo(db, p, client))
            && (answer == AcceptedResult <==> Welcome(db, client) && RunsNow(db, p) && LeasedTo(db, p, client))
            && answer != Aborted
  {
  }

  /** A submit that gets its pair's lock passes exactly if the pair is leased to its client now, while the client
      was welcome and the test ran when the submit's statement began. */
  lemma LockedGuardIs(cfg: Config, s: State, id: int)
    requires StepEnabled(cfg, s, LockPair(id))
    ensures var tx, after := s.txs[id], Next(cfg, s, LockPair(id));
            var seen := tx.phase.snapshot;
            && after.db == s.db
            && (id in after.txs <==>
                  && LeasedTo(s.db, tx.pair, tx.report.client) && Welcome(seen, tx.report.client)
                  && s.db.pairs[tx.pair].test in seen.tests && seen.tests[s.db.pairs[tx.pair].test].status == Running)
            && (id in after.txs ==> after.txs[id] == tx.(phase := Inserted))
  {
    var tx := s.txs[id];
    GuardIs(tx.phase.snapshot.(pairs := s.db.pairs), tx.pair, tx.report.client);
  }
}
