/** The tables of the queue database (migrations/001 to 005), one datatype a row, and the
    whole database as one value. Columns that no decision of the server reads (names, refs,
    FENs, display-only Elo, audit timestamps) are not modelled. */
module Schema {

  datatype Option<+T> = None | Some(value: T)

  /** tests.kind with the SPRT parameters that only an SPRT test has. */
  datatype Kind = Gauntlet | Sprt(elo0: real, elo1: real, alpha: real, beta: real)

  datatype TestStatus = Validating | Invalid | Queued | Running | Finished | Stopped

  /** tests.result; NoVerdict and AllPlayed are the enum's 'pending' and 'completed'. */
  datatype TestResult = NoVerdict | Accepted | Rejected | Inconclusive | AllPlayed

  datatype Test = Test(kind: Kind, status: TestStatus, result: TestResult, totalPairs: nat,
                       priority: int, createdAt: real, tcBaseMs: nat, tcIncrementMs: nat)

  datatype ClientStatus = Active | Idle | Banned

  datatype Client = Client(name: string, slots: nat, cpuFactor: Option<real>, status: ClientStatus)

  datatype PairStatus = Pending | Leased | Completed | Discarded

  datatype Pair = Pair(test: int, position: nat, status: PairStatus, dispatchOrder: real,
                       leasedTo: Option<int>, leaseExpiresAt: Option<real>, attempts: nat)

  datatype Outcome = CandidateWin | Draw | CandidateLoss

  datatype Termination = Normal | Timeout | IllegalMove | Crash | Adjudication | Other

  /** One reported game. */
  datatype GameReport = GameReport(candidateIsWhite: bool, outcome: Outcome, termination: Termination,
                                   plyCount: Option<int>, durationMs: Option<int>,
                                   tcBaseMs: nat, tcIncrementMs: nat, pgn: string)

  /** A whole pair; the report's game i has game_in_pair i. */
  datatype PairReport = PairReport(client: int, games: seq<GameReport>) {
    predicate Valid() { |games| == 2 }
  }

  /** The key of UNIQUE (pair_id, game_in_pair). */
  datatype GameKey = GameKey(pair: int, slot: nat)

  datatype Game = Game(test: int, client: int, report: GameReport, valid: bool)

  /** test_stats: pentanomial counts [LL, LD, DD_WL, WD, WW], LLR, score. */
  datatype Stats = Stats(penta: seq<nat>, llr: Option<real>, wins: nat, draws: nat, losses: nat)

  /** test_stats_history. */
  datatype HistoryPoint = HistoryPoint(pairsValid: nat, llr: Option<real>)

  datatype Db = Db(now: real,
                   tests: map<int, Test>, clients: map<int, Client>,
                   pairs: map<int, Pair>, games: map<GameKey, Game>,
                   stats: map<int, Stats>, history: map<int, seq<HistoryPoint>>,
                   nextTest: int, nextClient: int, nextPair: int)

  const EMPTY_DB := Db(0.0, map[], map[], map[], map[], map[], map[], 1, 1, 1)

  datatype Bounds = Bounds(lower: real, upper: real)

  /** Server configuration, and the two numeric functions of common/gsprt.cpp the server calls.
      llr is None where llr_normalized throws std::domain_error; it is only called for at least
      one pair (llr_normalized returns 0 before that). */
  datatype Config = Config(leaseTtlMinSeconds: real, maxAttempts: nat,
                           llr: (real, real, seq<nat>) -> Option<real>,
                           bounds: (real, real) -> Bounds)
}
