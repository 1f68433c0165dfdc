# capi_net in Dafny

capi_net plays chess engines against each other on many machines and decides by a sequential
probability ratio test (SPRT) whether a candidate engine beats a baseline. This project models its
server, the client half of its protocol, its statistics and its small algorithmic cores, and proves
what they keep. `dafny verify dfyconfig.toml` checks the whole project.

## What is modelled

**The work queue.** `Schema` has one datatype per table and the whole database as one value. `Queue`
and `Lifecycle` give each transaction (register, heartbeat, claim, submit, abandon, lease recovery,
promotion, stop, priority, smoke-test commit) as a function on it. `Server` is the imperative form: a
class whose fields are the tables, with one method per transaction that updates them row by row and is
proved equal to the function. Banning, the clock, the rows other transactions have locked, ties between
equal dispatch orders, random dispatch orders and the outcome of a build are arguments of the actions, so
every theorem ranges over all of them. `Invariants` and `Keeps` show that every transaction keeps the
invariant; `Runs`, `Safety`, `Transitions`, `ExactlyOnce`, `Leases` and `LeaseTerms` say what follows for
every run. `Sanity` and `Outcomes` decide which games count and how; `Plausible`, `Claims`, `Promotion` and
`Answers` state counting, leasing, promotion and the guard in the columns of the rows, without the functions
that compute them.

**Interleaved submits.** `Concurrent` splits submit_result into arriving (the snapshot its first
statement reads the joined tables from), locking the pair, locking the tests row, computing and
committing, under READ COMMITTED with row locks and SKIP LOCKED, next to every other transaction. Locking
the pair stands for the guard, the update of the pair and both inserts: from the lock on these touch only
rows nobody else can reach. Computing stands for all queries of refresh_test: they read only what the lock
of the tests row keeps others from changing for this test (`Concurrent.EnvQuiet`), so their order does not
matter. `Serial` shows that running transactions one after another is among the interleavings. `Interleaved`, `Verdicts`, `Records` and `InterleavedLeases` prove what survives, `FirstPair` and
`LateCount` give a run, and `Endings` is the bridge: nothing but the verdict itself depends on how an ended
test ended.

**The client.** `Pgn`, `GameText`, `Usage` and `Parsing` cut and read the text a match leaves behind;
`Movetext`, `Scoresheet` and `WrittenPairs` write such texts and prove that they are read back, and `Patterns`
proves what the hand-written matchers accept, expression by expression.
`ResultBody` builds the report, and `Client` is one slot of the runner over a channel that loses requests
and replies, while an adversary who sees the whole database decides what else reaches the server (late
duplicates included). `Honest`, `HonestInterleaved` and `Delivery` compose client and server, up to the
downloaded archive.

**The statistics**, in exact reals: `Vectors`, `Secular`, `Bracket`, `Mle`, `Llr`, `LlrDomain` and `Mirror`.
`Wald` shows that the LLR is the logarithm of the likelihood ratio of the two fits and that the test is decided
on that ratio by the error rates, `Signs` on whose side it is, and `FitRuns` what a fit is a run of.
The logarithm is any function with ln t <= t - 1 and the quotient law, the square root any positive s with
s * s = t, and the solver of the secular equation returns what the bisection converges to: the root if it
lies in the first bracket, which stops kEpsilon short of the poles, and otherwise the bracket's end on its
side. `Clamped` and `OneSideThrows` follow a fit in which it does not lie there. `Aborts` takes the LLR's
exceptions back to the server, and `FarRun` gives a run.

**Cores.** `Reservoir` and `Books` (opening sampling), `Download` (the pgn.gz provider), `Pool` (the
connection pool as a monitor), `ProcessOutput` (the bounded output loop), `TimeControl` (printer and
parser) and `History` (thinning of the chart).

## What the proofs found

- llr_normalized throws for any counts with a pair as soon as one of the hypotheses is 2/3 of
  kNeloDividedByNt (about 231.6, `FitRuns.TooFarInElo`) or more away from zero: the first pass of its fit throws, whatever the
  solver (`LlrDomain.FarLlrThrows`). While no category is nearly empty it throws for nothing else: with up
  to 1,900,000 pairs, or up to a thousand times as many if every category has one (`LlrDomain.LlrThrows`).
  Above that kEpsilon matters: the root may lie between the bracket's end and the pole, what the pass
  returns has then not mass one, and a later pass may throw for hypotheses well inside. Ten million pairs,
  as many as a test may have, all lost twice, are such counts, at half of kNeloDividedByNt
  (`Clamped.MassIsLost`, `Clamped.ThrowsBeyond`), and from the baseline's side the same games have an LLR
  (`OneSideThrows.OnlyOneSideThrows`).
- parse_test_spec puts no limit on custom bounds, so a test with a hypothesis that far out is admitted;
  every result with two valid games is then rolled back with an error, no pair of the test is ever counted,
  and it ends inconclusive (`Aborts.WhenSubmitsRollBack`, `Aborts.FarTestsNeverCount`).
  `FarRun.AFarTestRuns` is a run from the empty database to such a rollback, with hypotheses -300 and 300.
  No lease recovery is ever rolled back (`Keeps.RecoveryCommits`).
- The statistics of an ended test are frozen only when transactions are serialised. A submit that passed
  its guard before an administrator's stop, or before another submit's verdict, still commits its games
  and moves the statistics, exactly when both its games are valid. Status and verdict do not change.
  `Interleaved.LateCommitMovesStatistics` is the exact condition and `LateCount.AStoppedTestCounts` a run
  from the empty database that shows it. The verdict does fit the statistics stored by the step that gave
  it (`Verdicts.VerdictFitsItsStep`).
- parse_test_spec admits error rates with alpha + beta >= 1 (server/spec.cpp:160-162). The bounds are then
  out of order, no LLR lets a test continue, the first counted pair decides it, and a test with symmetric
  hypotheses and results is accepted from both sides. Exactly the rates with alpha + beta < 1 treat both
  sides alike in every test with counts as in the first finding, no category nearly empty
  (`Mirror.SomeLlrContinues`, `Mirror.BothSidesAccepted`, `Mirror.RatesMirror`).
- make_result_body builds no body exactly when one of the first two games is the candidate's and holds a
  number whose conversion throws: hours or nodes whose digits are beyond a long long, or seconds beyond a
  double (`ResultBody.BodyIsComplete`; in terms of what the match wrote, `WrittenPairs.WhenNoBody`; one
  such text, `WrittenPairs.NoBodyForTooLong`). slot_loop calls play_pair outside any try block, so the
  exception leaves the thread's function and ends the whole client, with the pair still leased
  (`Client.Runner.SlotPass`, `Client.Runner.SlotLoop`). Sums and products beyond a long long throw nothing,
  and the source then promises no value.
- parse_tc reads back what fastchess_tc printed exactly when the time control is in parse_tc's range;
  a base of zero is printed and then refused (`TimeControl.TcRoundTrip`).
- count_book_positions answers for the file it saw first while size and modification time stay the same
  (`Books.PositionCache.Count`, `Books.StaleCount`).
- stats_history returns more than max_points points exactly when max_points is below 2 and there are more
  (`History.Thin`).

## Model

| member | source | states |
|---|---|---|
| Safety.SchedulerSafety | server/test_lifecycle.cpp:114-147 | In every reachable database at most one test runs, none is queued without one running, and a running test has work left and an SPRT decision of Continue. |
| Safety.StatisticsAreTrue | server/test_lifecycle.cpp:30-104 | Every stored statistics row is the from-scratch recomputation over the stored games, and its score and pentanomial tell the same number of games and half points. |
| Safety.StatisticsInColumns | server/test_lifecycle.cpp:44-83 | A stored row entry by entry: pairs by half points, games by outcome, and the LLR of elo0 and elo1 in that order, 0 before the first pair and none for a gauntlet. |
| Safety.HistoryIsComplete | server/test_lifecycle.cpp:106-112 | A test's history has the pair counts 0, 1, ..., pairs_valid, each once and in order, and ends in the current LLR. |
| Safety.PairsAreConserved | server/smoke.cpp:134-152 | A test owns no pair or exactly total_pairs, divided without remainder among the four states, and never two of one position. |
| Safety.VerdictMatchesStatistics | server/test_lifecycle.cpp:72-133 | A finished test is accepted iff its LLR reached the upper bound, rejected iff it reached only the lower, and inconclusive or completed only with no work left. |
| Safety.VerdictOnlyWhenFinished | server/test_lifecycle.cpp:15-26 | A test has a verdict iff it is finished. |
| Safety.EndedForever | server/test_lifecycle.cpp:114-133 | In serialised runs a finished, stopped or invalid test keeps its row, its statistics, its history and its set of pairs forever. |
| Safety.StoppedInSmokeTestStaysOut | server/smoke.cpp:115-123 | A test stopped while its smoke test runs never gets pairs or statistics and stays stopped, whatever is done after, the worker's commit included. |
| Transitions.EndedTestsAreFrozen | server/test_lifecycle.cpp:114-133 | No single transaction changes an ended test, its statistics or its history. |
| Transitions.ApplyMove | server/queue.cpp:99-291 | The lease state machine: of all that any transaction does, a pair sees only its lease, its completion with both games, its return, its recovery or its discard, and each only under its guard. |
| Runs.ApplyKeeps | server/queue.cpp:90-291 | Every transaction that may run keeps the invariant of the database. |
| Runs.RunKeeps | server/queue.cpp:90-291 | Every run of transactions keeps the invariant. |
| Invariants.PromoteKeeps | server/test_lifecycle.cpp:136-147 | Promotion keeps the invariant and leaves no queue waiting while nothing runs. |
| Invariants.RefreshKeeps | server/test_lifecycle.cpp:30-134 | refresh_test brings a lagging test's statistics, history and verdict up to date and disturbs no other test. |
| Keeps.ClaimKeeps | server/queue.cpp:99-139 | A claim of any answer the query may give keeps the invariant. |
| Keeps.SubmitKeeps | server/queue.cpp:165-235 | A submit keeps the invariant in every outcome, refusals and rollback included. |
| Keeps.RecoverKeeps | server/queue.cpp:251-291 | Lease recovery keeps the invariant, with any number of tests losing their last pair at once. |
| Keeps.SmokeCommitKeeps | server/smoke.cpp:115-157 | The worker's commit keeps the invariant in all its outcomes: left, invalid, or admitted, refreshed and promoted. |
| Keeps.StopKeeps | server/admin.cpp:31-46 | Stopping a test, with the promotion it may cause, keeps the invariant. |
| Keeps.InsertTestKeeps | server/admin.cpp:10-29 | A new test keeps the invariant. |
| Lifecycle.PromoteEffect | server/test_lifecycle.cpp:136-147 | Promotion does nothing when a test runs or none waits, and otherwise starts exactly the one before which none waits: none of higher priority, none of the same priority and older, none of both the same and a smaller id. |
| Lifecycle.NextIsUnique | server/test_lifecycle.cpp:141-142 | The promotion order singles out one test. |
| Promotion.FirstInLineStarts | server/test_lifecycle.cpp:136-147 | Whenever any transaction starts a test, every test it leaves waiting has a lower priority, or the same and is younger, or both the same and a greater id. |
| Promotion.FirstInLineStartsInterleaved | server/test_lifecycle.cpp:136-147 | So it is in every step of every interleaving of submits. |
| Outcomes.ViewScoreHasCategory | common/penta.cpp:9-16 | Every score the view can give has a category, so category_from_pair_score never throws on it, and the category is twice the score. |
| Outcomes.CategoryIff | common/penta.cpp:9-16 | A score has category k iff k is 0 to 4 and within 1e-9 of twice the score; otherwise the source throws. |
| Outcomes.PentaCounts | migrations/001_initial.sql:227-241 | Entry k of the pentanomial is the number of the test's completed pairs with two valid games of one client that scored k half points together. |
| Outcomes.PentaTotal | server/test_lifecycle.cpp:44-50 | The pentanomial counts every row of the view exactly once. |
| Outcomes.ScoreAgreesWithPenta | migrations/001_initial.sql:227-241 | The score query and the pentanomial query agree on games and half points, over any set of games and pairs. |
| Sanity.CheckPairVerdicts | server/sanity.cpp:30-39 | Game i is valid iff the colours differ and it counts by its own fields: not ended by crash or illegal move, 1 to 2000 plies, a duration d >= 0 with 4 (d - 5000) <= 5 (2 base + increment plies). |
| Sanity.CheckOne | server/sanity.cpp:5-26 | One game is valid iff these fields say so, the integer division of the limit made exact. |
| Plausible.CountedIffPlausible | server/sanity.cpp:13-39 | In every reachable database the counted pairs are exactly the completed ones whose two games count by their own fields, with opposite colours. |
| Plausible.CountedIffPlausibleInterleaved | server/sanity.cpp:13-39 | So it is however submits interleave. |
| ExactlyOnce.AcceptedAtMostOnce | server/queue.cpp:169-198 | In any run a pair's results are accepted once if the run completes it and never otherwise; completion is never undone. |
| ExactlyOnce.CompletedByOneBody | server/queue.cpp:194-230 | A completed pair has exactly games 0 and 1, both from one body that its recorded holder submitted in that run. |
| ExactlyOnce.AcceptedStaysRecorded | server/queue.cpp:194-230 | The games of an accepted body stay on record unchanged, whatever follows. |
| ExactlyOnce.RepeatsAreHarmless | server/queue.cpp:188-192 | After any run a repeat by the recorded client changes nothing and answers already_completed, or client_banned if it was banned since; the end of the test does not matter. |
| ExactlyOnce.DoneStep | server/queue.cpp:194-198 | An action completes a pair iff it is an accepted submit of it. |
| ExactlyOnce.NewPairsAreFresh | server/smoke.cpp:142-147 | Pairs enter the queue pending, unleased and without attempts. |
| Leases.BudgetRun | server/queue.cpp:99-127 | What a test may still spend, plus all it spent in a run, never exceeds what it had plus what abandons gave back. |
| Leases.LeasesAreBounded | server/queue.cpp:240-291 | A test is granted at most total_pairs * max_attempts leases plus one per abandon, in any run. |
| Leases.RunningTestsEnd | server/test_lifecycle.cpp:125-133 | Claims, accepted results and recoveries together stay within twice that bound plus the abandons, and a test that has used it all no longer runs. |
| Leases.AttemptsAreBounded | server/queue.cpp:251-270 | A pair's attempts never exceed max_attempts plus its own abandons. |
| LeaseTerms.LeaseLastsItsTerm | server/queue.cpp:118-127 | From the claim until the deadline the pair stays its holder's, leased or completed, whatever happens elsewhere, unless the holder abandons it; a result in time is never refused as lease_lost; and the term is 24 (base + 60 increments) times the client's factor, or the configured minimum if that is longer. |
| Claims.ClaimGrants | server/queue.cpp:99-127 | Exactly the picked rows change: each was pending for the running test and is now leased to the client, with one attempt more and a deadline that term away, and keeps its other columns. |
| Claims.ClaimIsLimited | server/queue.cpp:107-114 | A claim takes no more rows than the client has slots or free slots, fewer only if no unlocked pending row is left, and never one with a later dispatch order than a row it leaves. |
| Keeps.RecoveryCommits | server/queue.cpp:286-290 | In every database that keeps the invariant the refreshes of a recovery recompute what is already stored, so the recovery never throws. |
| LeaseTerms.RecoveryIsExact | server/queue.cpp:255-270 | A recovery ends a lease iff its deadline has passed and nobody holds the row's lock; the pair returns to the queue iff it has attempts left. |
| Server.Server.ClaimPairs | server/queue.cpp:90-160 | Leases as many pending, unlocked pairs of the running test as the slots allow, in dispatch order, each for 24 (base + 60 increments) times the client's factor or the minimum, with one attempt more, and changes nothing else; an empty answer tells unknown, banned, no test and no pair apart. |
| Server.Server.PickPending | server/queue.cpp:109-116 | The rows picked: the limit or all there are, none with a later dispatch order than one left behind. |
| Server.Server.SubmitResult | server/queue.cpp:165-235 | Guard, completion, both games, recomputation, verdict and promotion in one transaction, or no change at all with the refusal that applies first; the count of valid games. |
| Answers.GuardIs | server/queue.cpp:165-192 | When a submit gets which answer, in columns: an unknown pair before an unknown client, a ban before anything about the pair, the client's own finished pair before the end of its test, and that before a lost lease. |
| Answers.LockedGuardIs | server/queue.cpp:169-192 | A submit that gets its pair's lock passes iff the pair is leased to its client now, while client and test are judged as they were when its statement began. |
| Server.Server.AbandonPair | server/queue.cpp:240-249 | Returns the pair to the queue iff the caller holds its lease, and changes nothing else. |
| Server.Server.RecoverExpired | server/queue.cpp:255-270 | Exactly the expired, unlocked leases are ended, each by its attempts. |
| Server.Server.CountReturned | server/queue.cpp:272-286 | Which tests lost a pair for good, and exactly how many of the rows were given up and how many went back to the queue. |
| Server.Server.RecoverExpiredLeases | server/queue.cpp:251-291 | All expired leases ended and every test that lost a pair refreshed, in ascending order; the two totals are those of the expired leases with and without an attempt left; it always commits on a valid database. |
| Server.Server.RegisterClient | server/queue.cpp:18-41 | One row per name: an old row keeps its id and its ban, a new one gets a fresh id. |
| Server.Server.RecordHeartbeat | server/queue.cpp:43-57 | Wakes a known client, keeps a ban, keeps the old CPU factor when none is sent; unknown clients change nothing. |
| Server.Server.ViewRows | migrations/001_initial.sql:227-241 | The rows of the view for one test, each in its category. |
| Server.Server.Tally | server/test_lifecycle.cpp:44-50 | The accumulation loop counts each category's rows. |
| Server.Server.CountGames | server/test_lifecycle.cpp:53-62 | The score query counts the counted games with one outcome. |
| Server.Server.ComputeStats | server/test_lifecycle.cpp:44-83 | Pentanomial, score and LLR of the stored games, or the exception of the LLR. |
| Server.Server.RefreshTest | server/test_lifecycle.cpp:30-134 | Statistics, a history point iff the number of pairs changed, verdict and promotion; nothing is written when the LLR throws. |
| Server.Server.FinishTest | server/test_lifecycle.cpp:15-26 | The verdict is set and the next test starts. |
| Server.Server.NextQueued | server/test_lifecycle.cpp:138-144 | The queued test before which none waits, if there is one. |
| Server.Server.PromoteNextTest | server/test_lifecycle.cpp:136-147 | Starts, iff none runs, the waiting test before which none waits by priority, age and id, and names it. |
| Server.Server.HasWork | server/test_lifecycle.cpp:125-129 | Whether any pair of the test is pending or leased. |
| Server.Server.CreateTest | server/admin.cpp:10-29 | A new validating test under a fresh id. |
| Server.Server.StopTest | server/admin.cpp:31-46 | Ends a validating, queued or running test, promotes when the running one went, names exactly the test that thereby started, and tells unknown and already ended tests apart. |
| Server.Server.ChangePriority | server/admin.cpp:48-58 | Changes the rank of a test that is not running yet, and of no other. |
| Server.Server.NextToValidate | server/smoke.cpp:59-65 | The read phase finds the oldest test still validating. |
| Server.Server.CommitSmokeTest | server/smoke.cpp:115-157 | Nothing if the test left validating meanwhile; invalid if the build failed or the book was too small; otherwise all its pairs, its first statistics and a promotion. |
| Server.Server.MaintenanceTick | server/main.cpp:29-43 | Lease recovery, then a promotion; an exception of the recovery would skip the promotion, and on a valid database there is none. |
| Endings.VeilKeeps | server/test_lifecycle.cpp:114-133 | The invariant does not need to know how ended tests ended. |
| Endings.ApplyAlike | server/queue.cpp:90-291 | Two databases that differ only in how ended tests ended stay alike under every transaction but a submit. |
| Concurrent.StepKeeps | server/queue.cpp:165-235 | Every step of every interleaving keeps the locks exclusive, the committed data true and what each submit in flight has read or computed valid. |
| Concurrent.CommitIsRefresh | server/test_lifecycle.cpp:30-104 | What a submit computed earlier is, at its commit, what refresh_test would write on the data committed by then. |
| Concurrent.EnvQuiet | server/test_lifecycle.cpp:31-39 | No other transaction changes what a recomputation under the tests row's lock depends on. |
| Interleaved.NoUpdateIsLost | server/test_lifecycle.cpp:30-112 | Under any interleaving of submits with each other and with all other transactions the committed statistics equal the recomputation over the committed games, score and pentanomial agree, and the history misses no pair count. |
| Interleaved.CommitIsAtomic | server/queue.cpp:165-235 | A commit has the effect of a submit done at once at that moment; it differs from one only where the client was banned or the test ended after the guard. |
| Serial.SerialIsInterleaved | server/queue.cpp:165-235 | Every database a serial run reaches is reached by an interleaving with no submit left in flight, so the interleaved model leaves no serial behaviour out. |
| Interleaved.SchedulerStaysSafe | server/test_lifecycle.cpp:114-147 | The scheduler's promises hold with submits in flight: one running test, no idle queue, work left, decision Continue. |
| Interleaved.CommittedAtMostOnce | server/queue.cpp:169-177 | However submits for one pair interleave, one commits if the run completes the pair and none otherwise. |
| Interleaved.VerdictIsFinal | server/test_lifecycle.cpp:114-133 | With submits in flight too, an ended test's status and verdict never change. |
| Interleaved.LateCommitMovesStatistics | server/queue.cpp:188-232 | A submit that commits into an ended test changes its statistics iff both games are valid, by exactly one pair. |
| Interleaved.StoppedTestStillCounts | server/admin.cpp:31-46 | It happens whenever a test is stopped under a submit past its guard that has two valid games and goes through: one more pair counts. |
| Verdicts.VerdictFitsItsStep | server/test_lifecycle.cpp:114-133 | However submits interleave, the step that takes a test from running to finished stores statistics recomputed from the games committed by then, and the verdict is the one these call for. |
| Records.CompletedByOneArrival | server/queue.cpp:194-230 | However submits of any bodies interleave, a completed pair has games 0 and 1 of one body that arrived for this pair in that run, sent by its recorded holder. |
| InterleavedLeases.LeasesAreBounded | server/queue.cpp:240-291 | With submits in flight too, a test is granted at most total_pairs * max_attempts leases plus one per abandon. |
| InterleavedLeases.RunningTestsEnd | server/test_lifecycle.cpp:125-133 | Claims, committed results and recoveries of any interleaving stay within twice that bound plus the abandons, and a test that has used it all no longer runs. |
| InterleavedLeases.AttemptsAreBounded | server/queue.cpp:251-270 | In any interleaving a pair's attempts never exceed max_attempts plus its own abandons. |
| LateCount.AStoppedTestCounts | server/admin.cpp:31-46 | A reachable state, with its run from the empty database, in which a stopped test has counted one more pair than when it was stopped. |
| Pgn.FindSpec | client/pgn.cpp:12-20 | The search finds the first occurrence from the given position, or none exists. |
| Pgn.SplitPgnGames | client/pgn.cpp:10-23 | The cursor loop cuts the text into the games of Split. |
| Pgn.SplitIsWellFormed | client/pgn.cpp:10-23 | Every game of any text begins with an Event tag, contains no other, and ends in one line end. |
| Pgn.SplitOfJoin | client/pgn.cpp:10-23 | Splitting joined games gives back exactly those games. |
| Pgn.SplitAgain | client/pgn.cpp:10-23 | Splitting what was split changes nothing, for any text. |
| Pgn.SplitKeepsInk | client/pgn.cpp:10-23 | From the first Event tag on nothing but line ends is lost, and nothing is reordered. |
| GameText.ReadTags | client/pgn.cpp:27-39 | The tags of a game, up to its first line of moves. |
| GameText.ReadPrintedTag | client/pgn.cpp:29-37 | Reading a printed tag gives it back. |
| GameText.ReadPrintedGame | client/pgn.cpp:27-39 | Reading a printed tag section gives back its tags, the last value of a repeated name, and nothing from the moves. |
| Patterns.TagLineIff | client/pgn.cpp:28-35 | A line is read as a tag iff the expression matches the whole of it: bracket, name, spaces, a quoted value with escapes, bracket, spaces; name and value are the two groups. |
| Patterns.LineEndsDoNotMatter | client/pgn.cpp:32-36 | A text with Windows line ends has the tags it has with plain ones. |
| Patterns.StoiIff | client/pgn.cpp:126-131 | The ply count is read iff its text begins, after white space, with a signed or unsigned number that fits 32 bits. |
| Patterns.DurationIff | client/pgn.cpp:61-64 | A duration is taken apart iff the expression matches: digits, and twice a colon and two digits. |
| Patterns.FirstNodesIff | client/pgn.cpp:76-94 | A comment's nodes are the digits of the first match of the expression, the longest there, beginning at a word boundary; none without a match. |
| Patterns.FirstSecondsIff | client/pgn.cpp:75-95 | A comment's seconds are the group of the first match: a space, digits with or without decimals, and an s before a word boundary. |
| Usage.ReadUsage | client/pgn.cpp:71-102 | The loop over the comments: the sums of nodes and time of each side over the comments that have both, one comment a move, or the exception of a conversion. |
| Usage.SumThrows | client/pgn.cpp:94-95 | The sums fail iff some comment holds nodes or seconds their conversion refuses. |
| Usage.SumsAreTotals | client/pgn.cpp:78-101 | The sides take turns, and as long as the sums fit a long long each side's nodes and milliseconds are those of its own comments added up; a side without a note has none. |
| Usage.DoubleRange | client/pgn.cpp:95 | Seconds are refused from 2^1024 - 2^970 on, where a double overflows, and on some platforms below 2^-1022. |
| Movetext.CommentIsRead | client/pgn.cpp:75-76 | The nodes and seconds of a written comment are read back, whatever else it says. |
| Scoresheet.EndingIsRead | client/pgn.cpp:49-59 | Each way a game ends, written in the match's words, is told to the server as what it is; other words are told as other. |
| Scoresheet.SideIsRead | client/pgn.cpp:134-140 | Black moves first iff the start position says so. |
| Scoresheet.CountIsRead | client/pgn.cpp:126-131 | A printed count is read iff it fits its type, and dropped otherwise. |
| Scoresheet.DurationIsRead | client/pgn.cpp:61-69 | A printed duration is read in milliseconds iff they fit 32 bits, dropped if they fit 64, and makes the conversion throw iff the hours alone are beyond 64; in between the value is the platform's. |
| Scoresheet.UsageIsRead | client/pgn.cpp:71-102 | The usage read from a written game is the sum of what its comments say, move by move, for each side. |
| Scoresheet.UsageIsTotal | client/pgn.cpp:71-143 | Candidate's and baseline's usage are the totals of the comments of their own moves, whoever moves first and whichever colour each has. |
| Scoresheet.WrittenGameIsRead | client/pgn.cpp:104-145 | Reading a written game gives back colour, result from the candidate's side, ending, plies, duration and both sides' usage; a game without the candidate or without a result is none. |
| Scoresheet.WhenReadingThrows | client/pgn.cpp:104-145 | Reading a written game throws iff the candidate played it to a result and its hours or some move's nodes are beyond 2^63 - 1, or some move's seconds beyond a double. |
| WrittenPairs.WrittenIsWellFormed | client/pgn.cpp:10-23 | A written game is one well-formed game of a PGN. |
| WrittenPairs.WrittenPairIsReported | client/runner.cpp:73-116 | From the text of two written games make_result_body reports exactly these games, with a placeholder for one the candidate did not play. |
| WrittenPairs.BodyInColumns | client/runner.cpp:84-112 | The body of two written games field by field: colour, outcome, ending, plies, duration, base, increment and text of a game the candidate played; a draw by crash with the other game's opposite colour, or White's first, for one it did not. |
| WrittenPairs.WhenNoBody | client/runner.cpp:73-116 | Such a text has no body iff a game of the candidate's holds a number its conversion refuses. |
| WrittenPairs.NoBodyForTooLong | client/pgn.cpp:65-66 | A text without a body on every platform: a game of 2^63 hours. |
| ResultBody.ReadGames | client/runner.cpp:76-81 | The first two games of the text, filled up to two; fails iff reading one of these two throws. |
| ResultBody.MakeResultBody | client/runner.cpp:73-116 | The body of the two games, with a placeholder for each that is missing. |
| ResultBody.ReadingThrows | client/pgn.cpp:61-102 | Reading a game throws iff the candidate played it to a result and the text's own digits of hours, nodes or seconds are beyond their conversion. |
| ResultBody.BodyIsComplete | client/runner.cpp:73-116 | There is no body iff one of the first two games is such a game; otherwise the body has games 0 and 1, on opposite colours unless both were read. |
| ResultBody.NothingFabricated | client/runner.cpp:104-112 | A game of the body that passes the server's check was read from the text, and is reported as read. |
| ResultBody.CountedPairsWerePlayed | server/sanity.cpp:30-39 | If both games pass, both were read and the candidate had opposite colours. |
| Honest.OnlyPlayedPairsCount | server/test_lifecycle.cpp:44-50 | In any run fed by such clients every pair the pentanomial counts was played: two games of one text, opposite colours, and the score is theirs. |
| Honest.ValidGamesAreWellFormed | server/reports.cpp:148-161 | In such a run every valid stored game is one well-formed game, as the download of valid games needs. |
| HonestInterleaved.OnlyPlayedPairsCount | server/test_lifecycle.cpp:44-50 | The same however the clients' submits interleave: every counted pair was played, with opposite colours, and the score is its games'. |
| HonestInterleaved.ValidGamesAreWellFormed | server/reports.cpp:148-161 | However submits interleave, every valid stored game is one well-formed game. |
| Delivery.DownloadTest | server/http/web_routes.cpp:210-262 | For any state honest clients' interleaved submits lead to, the archive of a test has the announced length and splits into exactly its valid games, in id order, whatever is stored meanwhile. |
| Client.NothingAccepted | server/queue.cpp:188-198 | If the pair is not recorded as the client's, no submit of the client's was ever accepted. |
| Client.OneBodyRecorded | client/runner.cpp:368-409 | If a client always sends the same body for a pair and the pair is recorded as its own, that body is what is recorded. |
| Client.AnswerTells | server/queue.cpp:179-192 | What each answer to a submit tells of the database: on record, lease not the client's, test not running, client banned, no such pair, no such client. |
| Client.SettledIff | client/runner.cpp:374-407 | Sending goes on after a server error only, and ends well exactly with accepted and already_completed. |
| Client.Runner.Exchange | client/api.cpp:106-117 | One exchange over the lossy channel: an answer that arrives is true of the database it arrives from. |
| Client.Runner.SubmitWithRetry | client/runner.cpp:368-409 | Whatever is lost, delayed or duplicated: each way the loop ends is true of the database (on record, lease gone, test over, banned, no such pair or client), giving up takes a deadline or a stopping runner, and it stops the runner iff it learns of a ban. |
| Client.Runner.SlotPass | client/runner.cpp:243-308 | One pass sends only a pair that was not complete before and that belongs to the engines' test; an exception while the result is built ends the client and leaves the pair leased. |
| Client.Runner.SlotLoop | client/runner.cpp:237-309 | Over any number of passes every pair reported as delivered is on record as the client's, the counter is the number of results sent and stops the runner at max_pairs, and nothing follows a pass that was cancelled, banned or left by an exception, which ends the client. |
| Secular.Decreasing | common/gsprt.cpp:16-27 | The secular function is strictly decreasing between its poles. |
| Secular.UniqueRoot | common/gsprt.cpp:16-27 | It has at most one root there. |
| Secular.Domain | common/gsprt.cpp:17-24 | All 1 + x * a_i are positive exactly between -1 / max and -1 / min. |
| Secular.Bisect | common/gsprt.cpp:16-38 | Throws iff the support does not straddle zero; otherwise the result keeps every 1 + x * a_i positive and lies within the bracket's width halved once per iteration of the root, or within epsilon of a bracket end the root lies beyond; and as near to what the bisection converges to. |
| Bracket.RootInBracket | common/gsprt.cpp:22-38 | If no frequency is below 5.2e-10 and the scores are bent to one side, as those of a fit are, the root lies in the first bracket, so the bisection converges to it. |
| Mle.TiltMass | common/gsprt.cpp:55-58 | The mass of the updated distribution is 1 - x * f(x) for every x in the domain, and its mean of a is f(x). |
| Mle.TiltAtRoot | common/gsprt.cpp:54-58 | At the root it is a probability distribution that meets the linearised constraint. |
| Mle.TiltIsLikeliest | common/gsprt.cpp:40-58 | It is the one maximum of the likelihood among all positive distributions that meet the constraint. |
| Llr.Moments | common/penta.cpp:44-50 | The two loops compute mean and variance. |
| Llr.VariancePositive | common/gsprt.cpp:47-51 | Positive probabilities have positive variance, so the division by sigma is defined. |
| Llr.PdfIsDistribution | common/penta.cpp:29-42 | For any counts the regularised frequencies are positive and sum to one. |
| Llr.MleTValue | common/gsprt.cpp:42-63 | Whatever the iteration returns has no zero and no negative entry, with any solver that stays between the poles, so the logarithms are defined; that it is a probability distribution is `LlrDomain.FitThrows`. |
| Llr.ComputeStep | common/gsprt.cpp:46-58 | One pass of the loop, and that it throws only through secular. |
| Llr.ComputeMle | common/gsprt.cpp:42-63 | The loop of at most ten passes with its early exit. |
| FitRuns.FitIsRun | common/gsprt.cpp:42-63 | A fit is a run of passes from the uniform distribution, at most ten, that ends before the tenth exactly when a pass moves no category by 1e-9 or throws. |
| FitRuns.WhereAFitStandsStill | common/gsprt.cpp:40-58 | A distribution that a pass does not move has exactly the t-value asked for: its mean is s standard deviations from one half. |
| FitRuns.StandsAtItsElo | common/gsprt.cpp:70-76 | For the t-value of a hypothesis its normalised Elo is the hypothesis: 347.43558552260146 times the excess over one half is elo standard deviations of a game. |
| Llr.ComputeLlr | common/gsprt.cpp:67-83 | The two fits and the weighted sum of log ratios, 0 without pairs, as the function the theorems are about, for any solver that stays between the poles; what that function is, is `Wald.LlrIsLogRatio`. |
| Wald.LlrIsLogRatio | common/gsprt.cpp:67-83 | For any counts with a pair the LLR is the logarithm of the likelihood ratio of the two fits: k times it is that of the counts taken k to the pair, an empty category counting a thousandth, for which k = 1000 does (`Wald.ThousandthsCount`). |
| Wald.LlrIsLogRatioOfPairs | common/gsprt.cpp:67-83 | With no category empty it is the logarithm of the ratio of the products of the fits' probabilities to the counts. |
| Wald.DecisionOnRatio | common/gsprt.cpp:85-93 | On a likelihood ratio r H1 is accepted iff r alpha >= 1 - beta, and otherwise H0 iff r (1 - alpha) <= beta. |
| Wald.TestIsDecidedByLikelihood | server/test_lifecycle.cpp:72-104 | The server decides a test by comparing the likelihood ratio of its games under the two fits with (1 - beta) / alpha and beta / (1 - alpha), for any counts. |
| Signs.FitLeans | common/gsprt.cpp:70-76 | The fit of a hypothesis above zero scores more than one half and that of one below zero less, for pentanomials as in `LlrDomain.LlrThrows`. |
| Signs.EvenSpeaksForNoDifference | common/gsprt.cpp:67-83 | Results with a score of one half speak for no difference: the LLR of any other hypothesis against it is negative, and of it against any other positive. |
| Signs.SymmetricSpeaksForNoDifference | common/gsprt.cpp:67-83 | So do symmetric results. |
| LlrDomain.FirstPass | common/gsprt.cpp:43-54 | For any solver: the support of the first pass straddles zero iff the hypothesis is less than 2/3 of kNeloDividedByNt away from zero. |
| LlrDomain.FarLlrThrows | common/gsprt.cpp:67-83 | With any solver the LLR throws for all counts with a pair when a hypothesis is that far from zero. |
| LlrDomain.StepIsExact | common/gsprt.cpp:54-58 | Where the solver finds the root, a pass gives a probability distribution that meets its linearised constraint. |
| LlrDomain.NextStraddles | common/gsprt.cpp:46-61 | Where the solver finds the root, once a pass has succeeded the next one's support straddles zero: its distribution meets the last constraint, which pushes the mean s sigma or more away from the reference. |
| LlrDomain.FitThrows | common/gsprt.cpp:42-63 | For frequencies whose roots the solver finds, a fit throws iff the hypothesis is that far from zero, and otherwise gives a probability distribution. |
| LlrDomain.LlrThrows | common/gsprt.cpp:67-83 | With at most 1,900,000 pairs, or a thousand times as many and no category empty, the LLR throws iff there are pairs and one of the two hypotheses is that far from zero. |
| Clamped.MassIsLost | common/gsprt.cpp:22-38 | Ten million pairs lost twice, at half of kNeloDividedByNt: the first pass leaves a mass below 0.93 and the second one below 0.51, because the bisection stops at the end of its first bracket. |
| Clamped.ThrowsBeyond | common/gsprt.cpp:42-83 | For these counts the LLR throws, in the third pass of a fit, although neither hypothesis is too far from zero. |
| OneSideThrows.OnlyOneSideThrows | common/gsprt.cpp:42-83 | For the same games and hypotheses seen from the baseline's side the LLR has a value. |
| Aborts.WhenSubmitsRollBack | server/queue.cpp:232-234 | In every reachable database a submit past its guard is rolled back if its test has such a hypothesis and both its games are valid, and in a test of at most 1,900,000 pairs, or with no category nearly empty, only then. |
| FarRun.AFarTestRuns | server/spec.cpp:159-162 | From the empty database a test of one pair with hypotheses -300 and 300 gets to run and its pair to be leased; then the pair's result, with two valid games, is rolled back and changes nothing. |
| FarRun.FarResultsRollBack | server/queue.cpp:165-234 | So is any such result, for any test with a hypothesis that far out. |
| Aborts.FarTestsNeverCount | server/spec.cpp:159-162 | A test with such a hypothesis, which the specification admits, never counts a pair and can only end inconclusive. |
| Aborts.FarTestsNeverCountInterleaved | server/test_lifecycle.cpp:64-83 | Nor does it count one with submits in flight. |
| Mirror.RootMirror | common/gsprt.cpp:16-38 | For frequencies whose roots the solver finds from both sides: negating and reversing the support and reversing the weights negates the solver's result. |
| Mirror.StepMirror | common/gsprt.cpp:46-58 | For such frequencies one pass of the iteration commutes with the mirror. |
| Mirror.IterateMirror | common/gsprt.cpp:42-63 | For such frequencies so do any number of passes, the early exit and the exception included. |
| Mirror.LlrMirror | common/gsprt.cpp:67-83 | Reversing the counts and exchanging and negating the two Elo values negates the LLR, for every pentanomial of at most 1,900,000 pairs, or a thousand times as many with no category empty; it then throws from both sides or from neither. |
| Mirror.BoundsMirror | common/gsprt.cpp:85-87 | Exchanging the error rates exchanges and negates the bounds; where they lie is `Wald.DecisionOnRatio`. |
| Mirror.BoundsInOrder | common/gsprt.cpp:85-87 | The lower bound is below the upper iff alpha + beta < 1. |
| Mirror.SomeLlrContinues | common/gsprt.cpp:85-93 | Some LLR lets a test continue iff alpha + beta < 1; which ones do is `Wald.DecisionOnRatio`. |
| Mirror.TestMirror | server/test_lifecycle.cpp:72-83 | For all error rates a test may have and such pentanomials, the server's decision seen from the baseline's side is the opposite one iff the LLR has not reached both bounds at once; alpha + beta < 1 rules that out. |
| Mirror.BothSidesAccepted | common/gsprt.cpp:85-93 | For such pentanomials a test with symmetric hypotheses and results has LLR 0, and is decided alike from either side iff alpha + beta < 1; otherwise both sides are accepted. |
| Mirror.RatesMirror | server/spec.cpp:160-162 | The error rates for which every test with such pentanomials is decided alike from either side are exactly those with alpha + beta < 1. |
| Reservoir.KeptDistinct | server/books.cpp:95-111 | The reservoir holds pairwise distinct positions of those seen. |
| Reservoir.AllWays | server/books.cpp:102-107 | There are (k + 1) ... (k + m) sequences of draws. |
| Reservoir.EachPositionEquallyLikely | server/books.cpp:95-111 | Over all sequences of draws every position is in the final sample for exactly k / n of them. |
| Books.CheckBoard | server/books.cpp:54-64 | The character loop accepts exactly the board alphabet. |
| Books.PositionIff | server/books.cpp:50-64 | A line is a position iff it has four words or more, the first of pieces, digits 1 to 8 and seven slashes and the second w or b. |
| Books.FenFields | server/books.cpp:66-71 | Its FEN has the line's first four words and its fifth and sixth if both are all digits, and otherwise 0 and 1. |
| Books.FenIsFixed | server/books.cpp:50-72 | What is read from a line is a full FEN of six fields: reading it again gives it back, and its first four fields are the line's. |
| Books.PositionCache.Count | server/books.cpp:74-93 | The number of positions of the file as it was when last counted under this path, size and time; right iff the file does not look unchanged or has as many positions as then. |
| Books.StaleCount | server/books.cpp:74-93 | A file that changes without changing its size and time is given its old number. |
| Books.ReadPositions | server/books.cpp:26-34 | The positions of all lines, in order. |
| Books.Sample | server/books.cpp:95-111 | The slot-overwriting loop keeps the positions whose numbers the reservoir of the counting theorem holds. |
| Books.SampleBook | server/books.cpp:95-111 | The sample of a book: the reservoir over its positions, with the generator's numbers in the order of its calls. |
| Books.SourcesAre | server/books.cpp:26-34 | The positions come from lines in ascending order, one each. |
| Books.SampleIsDistinct | server/books.cpp:95-111 | The sample has min(k, number of positions) entries from pairwise distinct lines. |
| Download.ManifestAscends | server/reports.cpp:148-161 | The manifest is in ascending id order, with the size of each stored game. |
| Download.RangeIs | server/reports.cpp:163-177 | A range query returns exactly the rows between its ends, ascending. |
| Download.MembersSize | server/http/web_routes.cpp:221-224 | Members of the announced sizes, each with a separator, have the announced total. |
| Download.Provider.ContentLength | server/http/web_routes.cpp:222-224 | The announced length is that total. |
| Download.Provider.Provide | server/http/web_routes.cpp:230-261 | One call of the provider appends the next at most 200 games of the manifest, each as announced and followed by the separator, or fails because the next game is not there as announced or the sink refused it. |
| Download.Provider.Run | server/http/web_routes.cpp:228-261 | However the table changes between calls, a download that succeeds writes exactly the announced number of bytes, the manifest's members in order; it never writes more. |
| Download.SteadyDownload | server/http/web_routes.cpp:240-250 | If the announced games stay as they are, whatever is added meanwhile, the members are those games and no call fails for them. |
| Download.MembersDecode | server/http/web_routes.cpp:204-210 | Decompressing the concatenated members gives the games, each followed by an empty line (section 2.2 of RFC 1952). |
| Download.DownloadRoundTrip | client/pgn.cpp:10-23 | Splitting the decompressed download of well-formed games gives back exactly those games. |
| Download.DownloadGames | server/http/web_routes.cpp:210-262 | A whole download of stored well-formed games: announced length, decompressed text and games. |
| Pool.StepKeeps | server/db/pool.cpp:12-43 | Every step of every thread keeps the books balanced and every blocked thread accounted for. |
| Pool.UnitsAddUp | server/db/pool.cpp:12-43 | Idle, leased and being created connections add up to created_, at most size, in every interleaving; no connection is leased twice or leased and idle. |
| Pool.NoLostWakeup | server/db/pool.cpp:28-42 | While a thread is blocked at least as many woken threads as free units are still to run; if none is, nothing is free. |
| Pool.ConnectionPool.TryTake | server/db/pool.cpp:12-26 | What a thread does under the mutex: an idle connection, a reservation, or waiting. |
| Pool.ConnectionPool.UndoReservation | server/db/pool.cpp:26-32 | A failed connect gives its unit back and wakes a thread. |
| Pool.ConnectionPool.GiveBack | server/db/pool.cpp:35-43 | A broken connection frees its unit, a good one becomes idle, and a thread is woken. |
| ProcessOutput.Buffer.Append | common/process.cpp:147-155 | The buffer stays within twice the limit and keeps at least the last max bytes of all that arrived. |
| ProcessOutput.Feed.Serve | common/process.cpp:156-168 | The child is sent a growing prefix of its input and nothing after the pipe broke. |
| ProcessOutput.Pump | common/process.cpp:90-174 | For any chunking the result is exactly the last min(total, max) bytes read, the buffer never holds more than twice that plus one chunk, and cancelled and timed out are reported iff that is what ended the loop. |
| ProcessOutput.EndedByFirst | common/process.cpp:101-114 | What ends the loop is the first event that can. |
| ProcessOutput.ReadNoMore | common/process.cpp:90-173 | What comes after the loop's end is not read. |
| ProcessOutput.TailLines | common/process.cpp:176-184 | The end of the text without trailing line ends, cut at the line end that leaves the number of lines asked for, or whole if it has fewer. |
| TimeControl.PrintSeconds | client/runner.cpp:29-36 | The trimming loop prints seconds without trailing zeros or point. |
| TimeControl.FastchessTc | client/runner.cpp:28-38 | Base and increment, joined. |
| TimeControl.SecondsRoundTrip | server/spec.cpp:14-26 | Printed seconds are read back to the millisecond, for every number of milliseconds. |
| Patterns.ParseSecondsIff | server/spec.cpp:14-26 | Seconds are accepted iff they are digits with at most one point and a digit on one side of it at least, and are that number. |
| Patterns.ParseTcIff | server/spec.cpp:61-73 | A time control is accepted iff it is seconds, or seconds, a plus and seconds, whose milliseconds are 1 to 86400000 and at most 3600000. |
| TimeControl.RoundedIsNearest | server/spec.cpp:66-67 | The milliseconds are the nearest whole number, halves going up. |
| TimeControl.TcRoundTrip | server/spec.cpp:61-73 | A printed time control is read back unchanged iff its base is 1 ms to 24 hours and its increment at most one hour, and refused otherwise. |
| History.Thin | server/reports.cpp:18-29 | The points kept: all, or max_points of them, point i the nearest to i (n - 1) / (max_points - 1); at most max_points iff max_points is at least 2 or there are no more. |
| History.ThinnedKeepsOrder | server/reports.cpp:18-29 | The kept points are a strictly increasing choice with both ends. |
| History.ChartGoesUp | server/reports.cpp:10-30 | In any reachable database the chart starts at no pairs, strictly rises, and ends at the test's current statistics. |

## Left out

- Secular.Bisect: IEEE rounding. The numerics are exact reals, so the early break of the bisection on a bracket that cannot shrink is reached only on an empty bracket; the number of halvings (200 in the source) is a parameter.
- Llr.ComputeLlr: the solver's result is what the bisection converges to (`Secular.IsLimit`), and 200 halvings stop short of it by the distance `Secular.Bisect` bounds; the number of passes is the source's 10.
- LlrDomain.LlrThrows: with more than 1,900,000 pairs and an empty category it does not say for which hypotheses less than 231.6 from zero the LLR throws; there are some (`Clamped.ThrowsBeyond`), and a condition on the counts short of following the ten passes is not known here.
- Aborts.WhenSubmitsRollBack: the same bound; that a run of the server gets to the counts of `Clamped` without an earlier verdict is not shown.
- Mirror.LlrMirror: the same bound, without which it is false (`OneSideThrows.OnlyOneSideThrows`); Mirror.TestMirror, Mirror.BothSidesAccepted and Mirror.RatesMirror inherit it.
- Signs.FitLeans: the same bound; Signs.EvenSpeaksForNoDifference and Signs.SymmetricSpeaksForNoDifference inherit it.
- History.Thin: strides are exact; the source computes them in double and at ties may keep a neighbouring point.
- Leases.RunningTestsEnd: says that work is bounded and that a test that used it up has ended, not that clients do claim; liveness of clients is outside the server.
- Server.Server.CommitSmokeTest: build and bench are one boolean and the sampled positions are their number and dispatch orders; FENs and the validation log are not columns of the model.
- Interleaved.NoUpdateIsLost: submits interleave statement by statement; the other transactions happen at once, as far as the row locks let them. The gap between the pick and the update of promote_next_test, which does not recheck the picked row's status, is closed here, as is the one inside a recovery.
- Concurrent.StepKeeps: foreign-key share locks, deadlock detection and query planning of PostgreSQL.
- Fencing by attempt number: submit checks status and holder only, so nothing here says that a recorded result belongs to the latest lease, or that a client holds at most its slots.
- Client.Runner.SubmitWithRetry: backoff, sleeping and the 15-minute clock; whether the deadline has passed and whether the runner is stopping are inputs of each try.
- The client's poll_server, prepare_engines and admission, and the parsing of claims and JSON fields.
- Scoresheet.WrittenGameIsRead: what signed arithmetic or std::llround beyond a long long leaves, and whether std::stod throws for a number below the normal doubles, are the platform's and parameters here; seconds are exact decimals. The sums of nodes and time are not columns of the modelled games table.
- Regular expressions: std::regex itself; the matchers are written by hand and `Patterns` says which texts they match, with the character classes of the C locale (`Patterns.ClassesAre`).
- Books.Sample: SplitMix64's quality and its modulo bias; draws are any numbers, and the counting theorem ranges over ideal ones. The file is the list of its lines.
- Download.MembersDecode: zlib; gzip is any codec whose members decode one after another.
- ProcessOutput.Pump: fork, exec, poll, signals, process groups and CPU affinity; what poll reports in each pass is an input.
- TimeControl.TcRoundTrip: binary floating point in printing and parsing, and negative milliseconds, which parse_tc never produces; products beyond the range of llround are rounded exactly and then refused.
- Elo, confidence intervals, audit timestamps, discard reasons and the web pages: display only.
- HTTP routing, configuration, command line, GitHub access, tarballs and engine builds: plumbing over libraries and foreign processes.
