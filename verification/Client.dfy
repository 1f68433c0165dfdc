/** client/runner.cpp: one slot of a client, talking to the server over a channel that may lose
    requests and replies. What else reaches the server meanwhile, from other clients or as late copies
    of this client's own requests, is chosen by an adversary who sees the whole database. */
module Client {
  import opened Schema
  import opened Lifecycle
  import opened Queue
  import opened Invariants
  import opened Keeps
  import opened Runs
  import opened Transitions
  import opened ExactlyOnce
  import opened GameText
  import opened ResultBody
  import opened TimeControl
  import opened Server

  /** What the rest of the world does when its turn comes. */
  type World = Db -> seq<Action>

  ghost predicate Obeys(cfg: Config, world: World) {
    forall db | Inv(cfg, db) :: Legal(cfg, db, world(db))
  }

  /** What becomes of one exchange: the request never arrives, or the reply is lost, or both get
      through. To the client the first two look the same. */
  datatype Fate = RequestLost | ReplyLost | Delivered

  /** One request: what reaches the server before it, and its fate. */
  datatype Call = Call(before: World, fate: Fate)

  /** A try of submit_with_retry, whether the deadline has passed by its end, and whether the runner
      is stopping then. */
  datatype Attempt = Attempt(call: Call, late: bool, stopping: bool)

  ghost predicate AllObey(cfg: Config, tries: seq<Attempt>) {
    forall i | 0 <= i < |tries| :: Obeys(cfg, tries[i].call.before)
  }

  datatype Sending = OnRecord | LeaseGone | TestOver | ClientOut | Refused | GaveUp | StillTrying

  ghost predicate Mine(db: Db, p: int, client: int) {
    Done(db, p) && Holds(db.pairs[p], client)
  }

  lemma Extend(cfg: Config, db: Db, log: seq<Action>, a: Action)
    requires Legal(cfg, db, log) && Enabled(After(cfg, db, log), a)
    ensures Legal(cfg, db, log + [a]) && After(cfg, db, log + [a]) == Apply(cfg, After(cfg, db, log), a)
  {
    var here := After(cfg, db, log);
    assert [a][1..] == [];
    assert Legal(cfg, Apply(cfg, here, a), []);
    assert Legal(cfg, here, [a]) && After(cfg, here, [a]) == Apply(cfg, here, a);
    AppendRun(cfg, db, log, [a]);
  }

  lemma {:induction false} MineForever(cfg: Config, db: Db, run: seq<Action>, p: int, client: int)
    requires Inv(cfg, db) && Legal(cfg, db, run) && Mine(db, p, client)
    ensures Mine(After(cfg, db, run), p, client)
    decreases |run|
  {
    if run != [] {
      ApplyMove(cfg, db, run[0], p);
      ApplyKeeps(cfg, db, run[0]);
      MineForever(cfg, Apply(cfg, db, run[0]), run[1..], p, client);
    }
  }

  /** If the pair is not the client's, no submit of the client's was accepted. */
  lemma NothingAccepted(cfg: Config, db: Db, log: seq<Action>, p: int, client: int)
    requires Inv(cfg, db) && Legal(cfg, db, log) && !Mine(After(cfg, db, log), p, client)
    ensures forall n, report | AcceptedAt(cfg, db, log, n, p, report) :: report.client != client
  {
    forall n, report | AcceptedAt(cfg, db, log, n, p, report) ensures report.client != client {
      AcceptedStaysRecorded(cfg, db, log, n, p, report);
    }
  }

  /** If the client only ever sends one body for the pair, that is the body on record. */
  lemma OneBodyRecorded(cfg: Config, db: Db, log: seq<Action>, p: int, body: PairReport)
    requires Inv(cfg, db) && Legal(cfg, db, log) && body.Valid()
    requires Mine(After(cfg, db, log), p, body.client) && !Done(db, p)
    requires forall n | 0 <= n < |log| :: log[n].DoSubmit? && log[n].pair == p && log[n].report.client == body.client ==> log[n].report == body
    ensures Recorded(After(cfg, db, log), p, body)
  {
    var n, report := CompletedByOneBody(cfg, db, log, p);
    assert log[n].report == body;
  }

  // ---------------------------------------------------------------------------
  // Answers
  // ---------------------------------------------------------------------------

  /** What the client makes of an answer; a server error is worth another try. */
  function Settled(status: SubmitStatus): Sending {
    match status
    case AcceptedResult => OnRecord
    case AlreadyCompleted => OnRecord
    case LeaseLost => LeaseGone
    case TestFinished => TestOver
    case ClientBanned => ClientOut
    case PairNotFound => Refused
    case UnknownClient => Refused
    case Aborted => StillTrying
  }

  /** The sending goes on after a server error only, and ends well exactly with the two answers that mean the
      result is on record. */
  lemma SettledIff(status: SubmitStatus)
    ensures Settled(status) == StillTrying <==> status == Aborted
    ensures Settled(status) == OnRecord <==> status in {AcceptedResult, AlreadyCompleted}
    ensures Settled(status) == LeaseGone <==> status == LeaseLost
    ensures Settled(status) == TestOver <==> status == TestFinished
    ensures Settled(status) == ClientOut <==> status == ClientBanned
    ensures Settled(status) == Refused <==> status in {PairNotFound, UnknownClient}
  {
  }

  /** What an answer says about the pair. */
  ghost predicate Tells(db: Db, p: int, client: int, status: SubmitStatus) {
    && (status == AcceptedResult || status == AlreadyCompleted ==> Mine(db, p, client))
    && (status == LeaseLost ==> p in db.pairs && !CanAbandon(db, p, client) && !Mine(db, p, client))
    && (status == TestFinished ==> p in db.pairs && !HasStatus(db, db.pairs[p].test, Running) && !Mine(db, p, client))
    && (status == ClientBanned ==> client in db.clients && db.clients[client].status == Banned)
    && (status == PairNotFound ==> p !in db.pairs)
    && (status == UnknownClient ==> client !in db.clients)
  }

  /** What the end of the sending shows: the pair is complete and the client's, or it is not and no
      submit of the client's for it was accepted (NothingAccepted), or the client is banned, or there
      is no such pair or client. */
  ghost predicate Shows(db: Db, p: int, client: int, sending: Sending) {
    && (sending == OnRecord ==> Mine(db, p, client))
    && (sending == LeaseGone ==> p in db.pairs && !CanAbandon(db, p, client) && !Mine(db, p, client))
    && (sending == TestOver ==> p in db.pairs && !HasStatus(db, db.pairs[p].test, Running) && !Mine(db, p, client))
    && (sending == ClientOut ==> client in db.clients && db.clients[client].status == Banned)
    && (sending == Refused ==> p !in db.pairs || client !in db.clients)
  }

  /** Giving up takes a deadline or a runner that is stopping. */
  predicate MayGiveUp(tries: seq<Attempt>) { exists k :: 0 <= k < |tries| && (tries[k].late || tries[k].stopping) }

  lemma GuardTells(db: Db, p: int, client: int)
    requires SubmitGuard(db, p, client) != AcceptedResult
    ensures Tells(db, p, client, SubmitGuard(db, p, client))
  {
  }

  lemma AnswerTells(cfg: Config, db: Db, p: int, body: PairReport)
    requires Inv(cfg, db) && body.Valid()
    ensures Tells(Submit(cfg, db, p, body).0, p, body.client, Submit(cfg, db, p, body).1)
  {
    if Submit(cfg, db, p, body).1 == AcceptedResult {
      AcceptedIsRecorded(cfg, db, DoSubmit(p, body), p);
    } else if SubmitGuard(db, p, body.client) != AcceptedResult {
      GuardTells(db, p, body.client);
    }
  }

  // ---------------------------------------------------------------------------
  // One slot
  // ---------------------------------------------------------------------------

  /** What one pass of slot_loop meets: the engines it has, the claim, what the match leaves behind
      (None if it was cancelled), the abandon and the tries to send the result. */
  datatype Plan = Plan(engineTest: Option<int>, claim: Call, locked: set<int>, played: Option<string>, note: string,
                       tc: Tc, giveBack: Call, tries: seq<Attempt>)

  ghost predicate PlanObeys(cfg: Config, plan: Plan) {
    Obeys(cfg, plan.claim.before) && Obeys(cfg, plan.giveBack.before) && AllObey(cfg, plan.tries)
  }

  /** How one pass ends. Crashed: an exception has left the slot's thread, and with it the whole client. */
  datatype Pass = NoEngines | NoReply | Banished | NoWork | OtherTest(pair: int) | Interrupted(pair: int)
                | Crashed(pair: int) | Sent(pair: int, sending: Sending)

  class Runner {
    const client: int
    const maxPairs: nat
    const platform: Platform
    var banned: bool
    var stop: bool
    var ended: bool
    var pairsDone: nat

    constructor (client: int, maxPairs: nat, platform: Platform)
      ensures this.client == client && !banned && !stop && !ended && pairsDone == 0
    {
      this.client, this.maxPairs, this.platform := client, maxPairs, platform;
      banned, stop, ended, pairsDone := false, false, false, 0;
    }

    /** The world goes on. */
    static method Meanwhile(server: Server, world: World) returns (ghost log: seq<Action>)
      requires server.Valid() && Obeys(server.cfg, world)
      modifies server
      ensures server.Valid() && Legal(server.cfg, old(server.Snap()), log)
      ensures server.Snap() == After(server.cfg, old(server.Snap()), log)
    {
      var todo := world(server.Snap());
      log := todo;
      while |todo| > 0
        invariant server.Valid() && Legal(server.cfg, server.Snap(), todo)
        invariant After(server.cfg, server.Snap(), todo) == After(server.cfg, old(server.Snap()), log)
        decreases |todo|
      {
        server.Perform(todo[0]);
        todo := todo[1..];
      }
    }

    /** One submit with its fate; None where the client sees a transient error without an answer. */
    static method Exchange(server: Server, p: int, body: PairReport, call: Call)
      returns (answer: Option<SubmitStatus>, ghost log: seq<Action>)
      requires server.Valid() && body.Valid() && Obeys(server.cfg, call.before)
      modifies server
      ensures server.Valid() && Legal(server.cfg, old(server.Snap()), log)
      ensures server.Snap() == After(server.cfg, old(server.Snap()), log)
      ensures answer.Some? ==> Tells(server.Snap(), p, body.client, answer.value)
    {
      ghost var db, cfg := server.Snap(), server.cfg;
      log := Meanwhile(server, call.before);
      answer := None;
      if call.fate != RequestLost {
        ghost var here := server.Snap();
        Extend(cfg, db, log, DoSubmit(p, body));
        ApplyKeeps(cfg, here, DoSubmit(p, body));
        var status, validGames := server.SubmitResult(p, body);
        log := log + [DoSubmit(p, body)];
        AnswerTells(cfg, here, p, body);
        if call.fate == Delivered {
          answer := Some(status);
        }
      }
    }

    /** One try: an answer that settles the matter ends the sending; after a failure the deadline ends
        it or, once the runner is stopping, the fourth failure. */
    static method TryOnce(server: Server, p: int, body: PairReport, attempt: Attempt, failures: nat)
      returns (sending: Sending, failed: nat, ghost log: seq<Action>)
      requires server.Valid() && body.Valid() && Obeys(server.cfg, attempt.call.before)
      modifies server
      ensures server.Valid() && Legal(server.cfg, old(server.Snap()), log)
      ensures server.Snap() == After(server.cfg, old(server.Snap()), log)
      ensures Shows(server.Snap(), p, body.client, sending)
      ensures failed == failures || (failed == failures + 1 && attempt.stopping)
      ensures sending == GaveUp ==> attempt.late || failed > 3
    {
      var answer;
      answer, log := Exchange(server, p, body, attempt.call);
      sending, failed := if answer.Some? then Settled(answer.value) else StillTrying, failures;
      if sending == StillTrying {
        if !attempt.late && attempt.stopping {
          failed := failures + 1;
        }
        if attempt.late || failed > 3 {
          sending := GaveUp;
        }
      }
    }

    /** The retry loop. */
    static method Deliver(server: Server, p: int, body: PairReport, tries: seq<Attempt>)
      returns (sending: Sending, ghost log: seq<Action>)
      requires server.Valid() && body.Valid() && AllObey(server.cfg, tries)
      modifies server
      ensures server.Valid() && Legal(server.cfg, old(server.Snap()), log)
      ensures server.Snap() == After(server.cfg, old(server.Snap()), log)
      ensures Shows(server.Snap(), p, body.client, sending)
      ensures sending == GaveUp ==> MayGiveUp(tries)
    {
      log := [];
      ghost var db, cfg := server.Snap(), server.cfg;
      var attemptsAfterStop := 0;
      sending := StillTrying;
      var k := 0;
      while k < |tries| && sending == StillTrying
        invariant server.Valid()
        invariant Legal(cfg, db, log) && server.Snap() == After(cfg, db, log)
        invariant Shows(server.Snap(), p, body.client, sending)
        invariant sending == GaveUp || attemptsAfterStop > 0 ==> MayGiveUp(tries)
      {
        ghost var more;
        sending, attemptsAfterStop, more := TryOnce(server, p, body, tries[k], attemptsAfterStop);
        AppendRun(cfg, db, log, more);
        log := log + more;
        k := k + 1;
      }
    }

    /** submit_with_retry */
    method SubmitWithRetry(server: Server, p: int, body: PairReport, tries: seq<Attempt>)
      returns (sending: Sending, ghost log: seq<Action>)
      requires server.Valid() && body.Valid() && body.client == client && AllObey(server.cfg, tries)
      modifies server, this`banned, this`stop
      ensures server.Valid() && Legal(server.cfg, old(server.Snap()), log)
      ensures server.Snap() == After(server.cfg, old(server.Snap()), log)
      ensures Shows(server.Snap(), p, client, sending) && (sending == GaveUp ==> MayGiveUp(tries))
      ensures if sending == ClientOut then banned && stop else banned == old(banned) && stop == old(stop)
    {
      sending, log := Deliver(server, p, body, tries);
      if sending == ClientOut {
        banned, stop := true, true;
      }
    }

    /** The claim of one pair. */
    static method Claim(server: Server, client: int, call: Call, locked: set<int>)
      returns (status: Option<ClaimStatus>, picked: set<int>, ghost log: seq<Action>)
      requires server.Valid() && Obeys(server.cfg, call.before)
      modifies server
      ensures server.Valid() && Legal(server.cfg, old(server.Snap()), log)
      ensures server.Snap() == After(server.cfg, old(server.Snap()), log)
      ensures forall p | p in picked :: p in server.Snap().pairs && server.Snap().pairs[p].status == Leased
    {
      ghost var db, cfg := server.Snap(), server.cfg;
      log := Meanwhile(server, call.before);
      status, picked := None, {};
      if call.fate != RequestLost {
        ghost var here := server.Snap();
        var answer, rows := server.ClaimPairs(client, 1, locked);
        Extend(cfg, db, log, DoClaim(client, 1, locked, rows));
        ApplyKeeps(cfg, here, DoClaim(client, 1, locked, rows));
        log := log + [DoClaim(client, 1, locked, rows)];
        ClaimedRows(cfg, here, client, locked, rows);
        if call.fate == Delivered {
          status, picked := Some(answer), rows;
        }
      }
    }

    static lemma ClaimedRows(cfg: Config, db: Db, client: int, locked: set<int>, rows: set<int>)
      requires Inv(cfg, db) && LegalPick(db, client, 1, locked, rows)
      ensures var after := Queue.Claim(cfg, db, client, rows);
              forall p | p in rows :: p in after.pairs && after.pairs[p].status == Leased
    {
      forall p | p in rows ensures p in db.pairs && db.pairs[p].test in db.tests && client in db.clients {
        PickedRows(db, client, 1, locked, rows, p);
      }
    }

    /** The abandon; a failure is ignored. */
    static method GiveBack(server: Server, p: int, client: int, call: Call) returns (ghost log: seq<Action>)
      requires server.Valid() && Obeys(server.cfg, call.before)
      modifies server
      ensures server.Valid() && Legal(server.cfg, old(server.Snap()), log)
      ensures server.Snap() == After(server.cfg, old(server.Snap()), log)
    {
      ghost var db, cfg := server.Snap(), server.cfg;
      log := Meanwhile(server, call.before);
      if call.fate != RequestLost {
        Extend(cfg, db, log, DoAbandon(p, client));
        ApplyKeeps(cfg, server.Snap(), DoAbandon(p, client));
        var released := server.AbandonPair(p, client);
        log := log + [DoAbandon(p, client)];
      }
    }

    /** The body for what the match left behind; None where make_result_body throws. */
    method BodyOf(plan: Plan) returns (body: Option<PairReport>)
      requires plan.played.Some?
      ensures body == Body(client, plan.played.value, plan.note, plan.tc, platform)
      ensures body.Some? ==> body.value.Valid() && body.value.client == client
    {
      body := MakeResultBody(client, plan.played.value, plan.note, plan.tc, platform);
      BodyIsComplete(client, plan.played.value, plan.note, plan.tc, platform);
    }

    /** Send what the match left behind; an exception of make_result_body ends the client. */
    method Send(server: Server, p: int, plan: Plan) returns (pass: Pass, ghost log: seq<Action>)
      requires server.Valid() && PlanObeys(server.cfg, plan) && plan.played.Some?
      modifies server, this`banned, this`stop, this`ended
      ensures server.Valid() && Legal(server.cfg, old(server.Snap()), log)
      ensures server.Snap() == After(server.cfg, old(server.Snap()), log)
      ensures pass == Crashed(p) || (pass.Sent? && pass.pair == p && Shows(server.Snap(), p, client, pass.sending))
      ensures pass.Crashed? <==> Body(client, plan.played.value, plan.note, plan.tc, platform).None?
      ensures pass.Crashed? ==> log == []
      ensures ended == (old(ended) || pass.Crashed?)
      ensures if pass.Sent? && pass.sending == ClientOut then banned && stop else banned == old(banned) && stop == old(stop)
    {
      var body := BodyOf(plan);
      if body.None? {
        ended := true;
        return Crashed(p), [];
      }
      var sending;
      sending, log := SubmitWithRetry(server, p, body.value, plan.tries);
      pass := Sent(p, sending);
    }

    /** One pass of slot_loop: claim one pair; give it back if it belongs to another test than the
        engines, or if the match was cancelled; otherwise send the result. */
    method SlotPass(server: Server, plan: Plan) returns (pass: Pass, ghost log: seq<Action>)
      requires server.Valid() && PlanObeys(server.cfg, plan)
      modifies server, this`banned, this`stop, this`ended
      ensures server.Valid() && Legal(server.cfg, old(server.Snap()), log)
      ensures server.Snap() == After(server.cfg, old(server.Snap()), log)
      ensures pass.Sent? ==> Shows(server.Snap(), pass.pair, client, pass.sending) && !Done(old(server.Snap()), pass.pair)
      ensures pass.Sent? && plan.engineTest.Some? ==>
                pass.pair in server.Snap().pairs && server.Snap().pairs[pass.pair].test == plan.engineTest.value
      ensures ended == (old(ended) || pass.Crashed?)
      ensures pass.Crashed? ==> pass.pair in server.Snap().pairs && server.Snap().pairs[pass.pair].status == Leased
      ensures if pass == Banished || (pass.Sent? && pass.sending == ClientOut) then banned && stop
              else banned == old(banned) && stop == old(stop)
    {
      log := [];
      if plan.engineTest.None? {
        return NoEngines, [];
      }
      ghost var db, cfg := server.Snap(), server.cfg;
      var status, picked;
      status, picked, log := Claim(server, client, plan.claim, plan.locked);
      if status.None? || status.value == ClaimUnknownClient {
        return NoReply, log;
      }
      if status.value == ClaimBanned {
        banned, stop := true, true;
        return Banished, log;
      }
      if picked == {} {
        return NoWork, log;
      }
      var p := Server.LeastOf(picked);
      ghost var granted, more := server.Snap(), log;
      NotDoneBefore(cfg, db, log, p);
      if server.pairs[p].test != plan.engineTest.value {
        pass := OtherTest(p);
        more := GiveBack(server, p, client, plan.giveBack);
      } else if plan.played.None? {
        pass := Interrupted(p);
        more := GiveBack(server, p, client, plan.giveBack);
      } else {
        pass, more := Send(server, p, plan);
        SameTest(cfg, granted, more, p);
      }
      AppendRun(cfg, db, log, more);
      log := log + more;
    }

    static lemma NotDoneBefore(cfg: Config, db: Db, log: seq<Action>, p: int)
      requires Inv(cfg, db) && Legal(cfg, db, log) && !Done(After(cfg, db, log), p)
      ensures !Done(db, p)
    {
      AcceptedAtMostOnce(cfg, db, log, p);
    }

    static lemma {:induction false} SameTest(cfg: Config, db: Db, run: seq<Action>, p: int)
      requires Inv(cfg, db) && Legal(cfg, db, run) && p in db.pairs
      ensures p in After(cfg, db, run).pairs && After(cfg, db, run).pairs[p].test == db.pairs[p].test
      decreases |run|
    {
      if run != [] {
        ApplyMove(cfg, db, run[0], p);
        ApplyKeeps(cfg, db, run[0]);
        SameTest(cfg, Apply(cfg, db, run[0]), run[1..], p);
      }
    }

    static ghost predicate OnRecordAll(db: Db, client: int, passes: seq<Pass>) {
      && (forall i | 0 <= i < |passes| && passes[i].Sent? && passes[i].sending == OnRecord :: Mine(db, passes[i].pair, client))
      && (forall i, j | 0 <= i < j < |passes| && passes[i].Sent? && passes[j].Sent? && passes[i].sending == OnRecord ::
            passes[i].pair != passes[j].pair)
    }

    static lemma StillOnRecord(cfg: Config, db: Db, run: seq<Action>, client: int, passes: seq<Pass>)
      requires Inv(cfg, db) && Legal(cfg, db, run) && OnRecordAll(db, client, passes)
      ensures OnRecordAll(After(cfg, db, run), client, passes)
    {
      forall i | 0 <= i < |passes| && passes[i].Sent? && passes[i].sending == OnRecord
        ensures Mine(After(cfg, db, run), passes[i].pair, client)
      {
        MineForever(cfg, db, run, passes[i].pair, client);
      }
    }

    static lemma NewPass(cfg: Config, db: Db, run: seq<Action>, client: int, passes: seq<Pass>, pass: Pass)
      requires Inv(cfg, db) && Legal(cfg, db, run) && OnRecordAll(db, client, passes)
      requires pass.Sent? ==> Shows(After(cfg, db, run), pass.pair, client, pass.sending) && !Done(db, pass.pair)
      ensures OnRecordAll(After(cfg, db, run), client, passes + [pass])
      ensures |SentPasses(passes + [pass])| == |SentPasses(passes)| + if pass.Sent? then 1 else 0
    {
      StillOnRecord(cfg, db, run, client, passes);
      SentStep(passes, pass);
    }

    /** The passes after which the loop goes on. */
    static predicate GoesOn(pass: Pass) { !pass.Interrupted? && !pass.Crashed? && !pass.Banished? }

    /** slot_loop. Every pair whose sending ended on record is, for good, complete in this client's
        name, and no result is sent twice for a pair once that is so. The client's process ends with the
        pass that throws; nothing follows it. */
    method SlotLoop(server: Server, plans: seq<Plan>) returns (passes: seq<Pass>, ghost log: seq<Action>)
      requires server.Valid() && forall i | 0 <= i < |plans| :: PlanObeys(server.cfg, plans[i])
      modifies server, this
      ensures server.Valid() && Legal(server.cfg, old(server.Snap()), log)
      ensures server.Snap() == After(server.cfg, old(server.Snap()), log)
      ensures OnRecordAll(server.Snap(), client, passes)
      ensures pairsDone == old(pairsDone) + |SentPasses(passes)|
      ensures forall i | 0 <= i < |passes| - 1 ::
                passes[i].Sent? || passes[i].OtherTest? || passes[i].NoWork? || passes[i].NoReply? || passes[i].NoEngines?
      ensures old(pairsDone) < maxPairs ==> pairsDone <= maxPairs && (pairsDone == maxPairs ==> stop)
      ensures ended == (old(ended) || (passes != [] && passes[|passes| - 1].Crashed?))
      ensures old(ended) ==> passes == [] && log == []
    {
      passes, log := [], [];
      ghost var db, cfg := server.Snap(), server.cfg;
      var over := false;
      var k := 0;
      while k < |plans| && !stop && !over && !ended
        invariant k <= |plans| && server.Valid()
        invariant forall i | 0 <= i < |passes| :: i < |passes| - 1 || !over ==> GoesOn(passes[i])
        invariant ended == (old(ended) || (passes != [] && passes[|passes| - 1].Crashed?))
        invariant old(ended) ==> passes == [] && log == []
        invariant Legal(cfg, db, log) && server.Snap() == After(cfg, db, log)
        invariant OnRecordAll(server.Snap(), client, passes)
        invariant pairsDone == old(pairsDone) + |SentPasses(passes)|
        invariant old(pairsDone) < maxPairs ==> pairsDone <= maxPairs && (pairsDone == maxPairs ==> stop)
      {
        ghost var here := server.Snap();
        var pass;
        ghost var more;
        pass, more := SlotPass(server, plans[k]);
        AppendRun(cfg, db, log, more);
        log := log + more;
        NewPass(cfg, here, more, client, passes, pass);
        passes := passes + [pass];
        over := !GoesOn(pass);
        if pass.Sent? {
          pairsDone := pairsDone + 1;
          if maxPairs > 0 && pairsDone >= maxPairs {
            stop := true;
          }
        }
        k := k + 1;
      }
    }

    static ghost function SentPasses(passes: seq<Pass>): set<int> {
      set i | 0 <= i < |passes| && passes[i].Sent?
    }

    static lemma SentStep(passes: seq<Pass>, pass: Pass)
      ensures |SentPasses(passes + [pass])| == |SentPasses(passes)| + if pass.Sent? then 1 else 0
    {
      if pass.Sent? {
        assert SentPasses(passes + [pass]) == SentPasses(passes) + {|passes|};
      } else {
        assert SentPasses(passes + [pass]) == SentPasses(passes);
      }
    }
  }
}
