/** The transactions of the server (server/queue.cpp, server/admin.cpp, server/smoke.cpp and the
    maintenance tick of server/main.cpp) as functions on the database. What the code leaves open
    is an argument of the action: the clock, which rows another transaction has locked, ties
    between equal dispatch orders, the random dispatch orders and the outcome of the builds. */
module Queue {
  import opened Schema
  import opened Sanity
  import opened Lifecycle
  import Sets

  // ---------------------------------------------------------------------------
  // Claim
  // ---------------------------------------------------------------------------

  function Max(a: real, b: real): real { if a >= b then a else b }

  function LeaseSeconds(cfg: Config, test: Test, c: Client): real {
    var estPairMs := 4.0 * (test.tcBaseMs + 60 * test.tcIncrementMs) as real;
    var factor := if c.cpuFactor.Some? then c.cpuFactor.value else 1.0;
    Max(cfg.leaseTtlMinSeconds, 6.0 * estPairMs * factor / 1000.0)
  }

  function ClaimLimit(slotsFree: int, c: Client): nat {
    var free := if slotsFree > 0 then slotsFree else 0;
    if free < c.slots then free else c.slots
  }

  predicate KnownClient(db: Db, client: int) {
    client in db.clients && db.clients[client].status != Banned
  }

  /** Pending pairs of test t that no other transaction has locked. */
  ghost function Available(db: Db, t: int, locked: set<int>): set<int> {
    set p | p in db.pairs && db.pairs[p].test == t && db.pairs[p].status == Pending && p !in locked
  }

  /** picked is an answer the claim query may give for running test t: as many available pairs as
      the limit allows, none with a later dispatch order than one left behind. */
  ghost predicate IsPick(db: Db, t: int, client: int, slotsFree: int, locked: set<int>, picked: set<int>)
    requires client in db.clients
  {
    var available := Available(db, t, locked);
    var limit := ClaimLimit(slotsFree, db.clients[client]);
    && picked <= available
    && |picked| == (if limit < |available| then limit else |available|)
    && forall p, q | p in picked && q in available && q !in picked ::
         db.pairs[p].dispatchOrder <= db.pairs[q].dispatchOrder
  }

  ghost predicate LegalPick(db: Db, client: int, slotsFree: int, locked: set<int>, picked: set<int>) {
    if !KnownClient(db, client) then picked == {}
    else
      && (!SomeTestIs(db, Running) ==> picked == {})
      && forall t | HasStatus(db, t, Running) :: IsPick(db, t, client, slotsFree, locked, picked)
  }

  function LeaseRow(cfg: Config, db: Db, client: int, row: Pair): Pair {
    if row.test in db.tests && client in db.clients then
      row.(status := Leased, leasedTo := Some(client),
           leaseExpiresAt := Some(db.now + LeaseSeconds(cfg, db.tests[row.test], db.clients[client])),
           attempts := row.attempts + 1)
    else row
  }

  function Claim(cfg: Config, db: Db, client: int, picked: set<int>): Db {
    db.(pairs := map p | p in db.pairs :: if p in picked then LeaseRow(cfg, db, client, db.pairs[p]) else db.pairs[p])
  }

  // ---------------------------------------------------------------------------
  // Submit
  // ---------------------------------------------------------------------------

  /** Aborted: the LLR computation threw, the transaction rolled back and the request got a 500. */
  datatype SubmitStatus = AcceptedResult | PairNotFound | UnknownClient | LeaseLost | AlreadyCompleted
                        | TestFinished | ClientBanned | Aborted

  predicate Holds(row: Pair, client: int) { row.leasedTo == Some(client) }

  function SubmitGuard(db: Db, p: int, client: int): SubmitStatus {
    if p !in db.pairs then PairNotFound
    else if client !in db.clients then UnknownClient
    else if db.clients[client].status == Banned then ClientBanned
    else if db.pairs[p].status == Completed && Holds(db.pairs[p], client) then AlreadyCompleted
    else if !HasStatus(db, db.pairs[p].test, Running) then TestFinished
    else if db.pairs[p].status != Leased || !Holds(db.pairs[p], client) then LeaseLost
    else AcceptedResult
  }

  function GameRow(test: int, report: PairReport, i: nat): Game
    requires report.Valid() && i < 2
  {
    Game(test, report.client, report.games[i], CheckPair(report, i))
  }

  /** The pair completed and both games inserted, before refresh_test. */
  function Insert(db: Db, p: int, report: PairReport): Db
    requires p in db.pairs && report.Valid()
  {
    var row := db.pairs[p];
    db.(pairs := db.pairs[p := row.(status := Completed)],
        games := db.games[GameKey(p, 0) := GameRow(row.test, report, 0)]
                         [GameKey(p, 1) := GameRow(row.test, report, 1)])
  }

  ghost function Submit(cfg: Config, db: Db, p: int, report: PairReport): (Db, SubmitStatus)
    requires report.Valid()
  {
    var guard := SubmitGuard(db, p, report.client);
    if guard != AcceptedResult then (db, guard)
    else match Refresh(cfg, Insert(db, p, report), db.pairs[p].test)
      case None => (db, Aborted)
      case Some(after) => (after, AcceptedResult)
  }

  // ---------------------------------------------------------------------------
  // Abandon and lease recovery
  // ---------------------------------------------------------------------------

  function Requeue(row: Pair): Pair {
    row.(status := Pending, leasedTo := None, leaseExpiresAt := None)
  }

  predicate CanAbandon(db: Db, p: int, client: int) {
    p in db.pairs && db.pairs[p].status == Leased && Holds(db.pairs[p], client)
  }

  function Abandon(db: Db, p: int, client: int): Db {
    if CanAbandon(db, p, client) then db.(pairs := db.pairs[p := Requeue(db.pairs[p])]) else db
  }

  predicate IsExpired(db: Db, p: int, locked: set<int>) {
    && p in db.pairs && db.pairs[p].status == Leased && p !in locked
    && db.pairs[p].leaseExpiresAt.Some? && db.pairs[p].leaseExpiresAt.value < db.now
  }

  function Expired(db: Db, locked: set<int>): set<int> {
    set p | p in db.pairs && IsExpired(db, p, locked)
  }

  predicate OutOfAttempts(cfg: Config, row: Pair) { row.attempts >= cfg.maxAttempts }

  function RecoverRow(cfg: Config, row: Pair): Pair {
    if OutOfAttempts(cfg, row) then row.(status := Discarded) else Requeue(row)
  }

  function RecoverRows(cfg: Config, db: Db, locked: set<int>): Db {
    db.(pairs := map p | p in db.pairs :: if IsExpired(db, p, locked) then RecoverRow(cfg, db.pairs[p]) else db.pairs[p])
  }

  function TestsWithDiscards(cfg: Config, db: Db, locked: set<int>): set<int> {
    set p | p in db.pairs && IsExpired(db, p, locked) && OutOfAttempts(cfg, db.pairs[p]) :: db.pairs[p].test
  }

  /** refresh_test for every test of ts, in ascending order. */
  ghost function RefreshAll(cfg: Config, db: Db, ts: set<int>): Option<Db>
    decreases |ts|
  {
    if ts == {} then Some(db)
    else
      var t := Sets.Min(ts);
      match Refresh(cfg, db, t)
      case None => None
      case Some(after) => RefreshAll(cfg, after, ts - {t})
  }

  ghost function Recover(cfg: Config, db: Db, locked: set<int>): Db {
    match RefreshAll(cfg, RecoverRows(cfg, db, locked), TestsWithDiscards(cfg, db, locked))
    case None => db
    case Some(after) => after
  }

  // ---------------------------------------------------------------------------
  // Clients
  // ---------------------------------------------------------------------------

  predicate NameTaken(clients: map<int, Client>, name: string, c: int) {
    c in clients && clients[c].name == name
  }

  /** Whose name it is; names are unique. */
  ghost function ClientNamed(clients: map<int, Client>, name: string): Option<int> {
    if exists c :: NameTaken(clients, name, c) then
      var c :| NameTaken(clients, name, c); Some(c)
    else None
  }

  function Wake(c: Client): Client {
    c.(status := if c.status == Banned then Banned else Active)
  }

  /** register_client: an upsert by name that never lifts a ban. */
  ghost function Register(db: Db, name: string, slots: nat): Db {
    match ClientNamed(db.clients, name)
    case Some(c) => db.(clients := db.clients[c := Wake(db.clients[c]).(slots := slots)])
    case None =>
      db.(clients := db.clients[db.nextClient := Client(name, slots, None, Active)], nextClient := db.nextClient + 1)
  }

  function Heartbeat(db: Db, c: int, factor: Option<real>): Db {
    if c !in db.clients then db
    else
      var row := Wake(db.clients[c]);
      db.(clients := db.clients[c := if factor.Some? then row.(cpuFactor := factor) else row])
  }

  function Ban(db: Db, c: int): Db {
    if c !in db.clients then db else db.(clients := db.clients[c := db.clients[c].(status := Banned)])
  }

  // ---------------------------------------------------------------------------
  // Test administration and the smoke worker's commit phase
  // ---------------------------------------------------------------------------

  function InsertTest(db: Db, kind: Kind, totalPairs: nat, priority: int, baseMs: nat, incMs: nat): Db {
    db.(tests := db.tests[db.nextTest := Test(kind, Validating, NoVerdict, totalPairs, priority, db.now, baseMs, incMs)],
        nextTest := db.nextTest + 1)
  }

  function SetPriority(db: Db, t: int, priority: int): Db {
    if HasStatus(db, t, Validating) || HasStatus(db, t, Queued)
    then db.(tests := db.tests[t := db.tests[t].(priority := priority)])
    else db
  }

  predicate Stoppable(s: TestStatus) { s == Validating || s == Queued || s == Running }

  ghost function Stop(db: Db, t: int): Db {
    if t !in db.tests || !Stoppable(db.tests[t].status) then db
    else if db.tests[t].status == Running then Promote(SetStatus(db, t, Stopped))
    else SetStatus(db, t, Stopped)
  }

  /** One opening position and one pending pair for each sampled position. */
  function AddPairs(db: Db, t: int, orders: seq<real>): Db {
    db.(pairs := db.pairs + map p | p in Sets.Range(db.nextPair, |orders|) ::
                   Pair(t, p - db.nextPair + 1, Pending, orders[p - db.nextPair], None, None, 0),
        nextPair := db.nextPair + |orders|)
  }

  /** The commit phase of process_next: built is what the build and bench found, orders has one
      random dispatch order for each position the book sample returned. */
  ghost function SmokeCommit(cfg: Config, db: Db, t: int, built: bool, orders: seq<real>): Db {
    if !HasStatus(db, t, Validating) then db
    else if !built || |orders| < db.tests[t].totalPairs then SetStatus(db, t, Invalid)
    else match Refresh(cfg, SetStatus(AddPairs(db, t, orders), t, Queued), t)
      case None => db
      case Some(after) => Promote(after)
  }

  // ---------------------------------------------------------------------------
  // Actions and runs
  // ---------------------------------------------------------------------------

  datatype Action =
    | DoTick(dt: real)
    | DoRegister(name: string, slots: nat)
    | DoHeartbeat(client: int, factor: Option<real>)
    | DoBan(client: int)
    | DoInsertTest(kind: Kind, totalPairs: nat, priority: int, baseMs: nat, incMs: nat)
    | DoSetPriority(test: int, newPriority: int)
    | DoStop(test: int)
    | DoSmokeCommit(test: int, built: bool, orders: seq<real>)
    | DoClaim(client: int, slotsFree: int, locked: set<int>, picked: set<int>)
    | DoSubmit(pair: int, report: PairReport)
    | DoAbandon(pair: int, client: int)
    | DoRecover(locked: set<int>)
    | DoPromote

  /** What the surroundings guarantee: time does not run backwards, parse_test_spec admits no
      empty test, a book sample never exceeds the requested size, a report has two games, and a
      claim's rows are an answer its query may give. */
  ghost predicate Enabled(db: Db, a: Action) {
    match a
    case DoTick(dt) => dt >= 0.0
    case DoInsertTest(_, totalPairs, _, _, _) => totalPairs > 0
    case DoSmokeCommit(t, _, orders) => t in db.tests ==> |orders| <= db.tests[t].totalPairs
    case DoClaim(client, slotsFree, locked, picked) => LegalPick(db, client, slotsFree, locked, picked)
    case DoSubmit(_, report) => report.Valid()
    case _ => true
  }

  ghost function Apply(cfg: Config, db: Db, a: Action): Db
    requires Enabled(db, a)
  {
    match a
    case DoTick(dt) => db.(now := db.now + dt)
    case DoRegister(name, slots) => Register(db, name, slots)
    case DoHeartbeat(c, factor) => Heartbeat(db, c, factor)
    case DoBan(c) => Ban(db, c)
    case DoInsertTest(kind, totalPairs, priority, baseMs, incMs) => InsertTest(db, kind, totalPairs, priority, baseMs, incMs)
    case DoSetPriority(t, priority) => SetPriority(db, t, priority)
    case DoStop(t) => Stop(db, t)
    case DoSmokeCommit(t, built, orders) => SmokeCommit(cfg, db, t, built, orders)
    case DoClaim(client, _, _, picked) => Claim(cfg, db, client, picked)
    case DoSubmit(p, report) => Submit(cfg, db, p, report).0
    case DoAbandon(p, client) => Abandon(db, p, client)
    case DoRecover(locked) => Recover(cfg, db, locked)
    case DoPromote => Promote(db)
  }
}
