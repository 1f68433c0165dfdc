/** server/sanity.cpp: which reported games may enter the statistics. */
module Sanity {
  import opened Schema

  const MAX_PLY_COUNT: int := 2000

  /** Both clocks, with 25% and five seconds of slack (integer division truncates; the operands
      are never negative here). */
  function MaxPlausibleDurationMs(tcBaseMs: nat, tcIncrementMs: nat, plyCount: nat): nat {
    var clocks := 2 * tcBaseMs + tcIncrementMs * plyCount;
    clocks + clocks / 4 + 5000
  }

  predicate CheckGame(g: GameReport) {
    && g.termination != Crash && g.termination != IllegalMove
    && g.plyCount.Some? && 0 < g.plyCount.value <= MAX_PLY_COUNT
    && g.durationMs.Some? && 0 <= g.durationMs.value
    && g.durationMs.value <= MaxPlausibleDurationMs(g.tcBaseMs, g.tcIncrementMs, g.plyCount.value)
  }

  /** The longest plausible duration: a quarter more than both clocks, rounded down, and five seconds. */
  lemma PlausibleIff(tcBaseMs: nat, tcIncrementMs: nat, plyCount: nat, durationMs: int)
    ensures durationMs <= MaxPlausibleDurationMs(tcBaseMs, tcIncrementMs, plyCount)
       <==> 4 * (durationMs - 5000) <= 5 * (2 * tcBaseMs + tcIncrementMs * plyCount)
  {
    var clocks := 2 * tcBaseMs + tcIncrementMs * plyCount;
    assert clocks == 4 * (clocks / 4) + clocks % 4;
  }

  /** What a valid game says of itself: neither a crash nor an illegal move ended it, its plies are counted
      and are 1 to 2000, and its duration is given and fits its clocks. */
  predicate Counts(g: GameReport) {
    && g.termination != Crash && g.termination != IllegalMove
    && g.plyCount.Some? && 1 <= g.plyCount.value <= 2000
    && g.durationMs.Some? && g.durationMs.value >= 0
    && 4 * (g.durationMs.value - 5000) <= 5 * (2 * g.tcBaseMs + g.tcIncrementMs * g.plyCount.value)
  }

  lemma CheckGameIff(g: GameReport)
    ensures CheckGame(g) <==> Counts(g)
  {
    if g.plyCount.Some? && g.durationMs.Some? && g.plyCount.value > 0 {
      PlausibleIff(g.tcBaseMs, g.tcIncrementMs, g.plyCount.value, g.durationMs.value);
    }
  }

  /** check_pair as a value: the verdict on game i. */
  predicate CheckPair(report: PairReport, i: nat)
    requires report.Valid() && i < 2
  {
    CheckGame(report.games[i]) && report.games[0].candidateIsWhite != report.games[1].candidateIsWhite
  }

  /** check_game: the first reason that applies makes the game invalid. */
  method CheckOne(g: GameReport) returns (valid: bool)
    ensures valid == CheckGame(g) && (valid <==> Counts(g))
  {
    CheckGameIff(g);
    if g.termination == Crash || g.termination == IllegalMove {
      return false;
    }
    if g.plyCount.None? || g.plyCount.value <= 0 || g.plyCount.value > MAX_PLY_COUNT {
      return false;
    }
    if g.durationMs.None? || g.durationMs.value < 0 {
      return false;
    }
    valid := g.durationMs.value <= MaxPlausibleDurationMs(g.tcBaseMs, g.tcIncrementMs, g.plyCount.value);
  }

  /** check_pair: per-game verdicts first, then equal colours overwrite them. */
  method CheckPairVerdicts(report: PairReport) returns (valid: seq<bool>)
    requires report.Valid()
    ensures |valid| == 2
    ensures forall i :: 0 <= i < 2 ==> valid[i] == CheckPair(report, i)
    ensures forall i :: 0 <= i < 2 ==>
              (valid[i] <==> report.games[0].candidateIsWhite != report.games[1].candidateIsWhite && Counts(report.games[i]))
  {
    var first := CheckOne(report.games[0]);
    var second := CheckOne(report.games[1]);
    valid := [first, second];
    if report.games[0].candidateIsWhite == report.games[1].candidateIsWhite {
      for i := 0 to 2
        invariant |valid| == 2
        invariant forall j :: 0 <= j < i ==> !valid[j]
      {
        if valid[i] {
          valid := valid[i := false];
        }
      }
    }
  }
}
