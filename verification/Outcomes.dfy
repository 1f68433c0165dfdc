/** The pair_outcomes view (migrations/001_initial.sql), the pentanomial built from it
    (common/penta.cpp) and the score query of refresh_test, which reads the games table
    directly. The two must tell the same story. */
module Outcomes {
  import opened Schema
  import opened Sets

  function Points(o: Outcome): real {
    match o
    case CandidateWin => 1.0
    case Draw => 0.5
    case CandidateLoss => 0.0
  }

  function Row(db: Db, p: int, slot: nat): Option<Game> {
    if GameKey(p, slot) in db.games then Some(db.games[GameKey(p, slot)]) else None
  }

  /** The view's row for pair p, if it has one. Rows are grouped by pair and client and kept when
      the group counts two valid games; UNIQUE (pair_id, game_in_pair) with game_in_pair in {0, 1}
      makes that group the pair's games 0 and 1. */
  function PairScore(db: Db, p: int): Option<real> {
    if p in db.pairs && db.pairs[p].status == Completed
       && Row(db, p, 0).Some? && Row(db, p, 1).Some?
       && Row(db, p, 0).value.valid && Row(db, p, 1).value.valid
       && Row(db, p, 0).value.client == Row(db, p, 1).value.client
    then Some(Points(Row(db, p, 0).value.report.outcome) + Points(Row(db, p, 1).value.report.outcome))
    else None
  }

  /** std::round: halves go away from zero. */
  function Round(x: real): int {
    if x >= 0.0 then (x + 0.5).Floor else -((0.5 - x).Floor)
  }

  /** category_from_pair_score; None where the source throws. */
  function CategoryFromPairScore(score: real): Option<nat> {
    var idx := score * 2.0;
    var rounded := Round(idx);
    var off := idx - rounded as real;
    if 0 <= rounded <= 4 && -0.000000001 <= off <= 0.000000001 then Some(rounded) else None
  }

  /** The category is the whole number from 0 to 4 within 1e-9 of twice the score; without one the source throws. */
  lemma CategoryIff(score: real, k: nat)
    ensures CategoryFromPairScore(score) == Some(k) <==> k <= 4 && -0.000000001 <= 2.0 * score - k as real <= 0.000000001
  {
    var x := 2.0 * score;
    if k <= 4 && -0.000000001 <= x - k as real <= 0.000000001 {
      if x >= 0.0 {
        assert k as real <= x + 0.5 < k as real + 1.0;
      } else {
        assert (0.5 - x).Floor == 0;
      }
    }
  }

  function Category(db: Db, p: int): Option<nat> {
    match PairScore(db, p)
    case None => None
    case Some(score) => CategoryFromPairScore(score)
  }

  /** The pairs the pentanomial counts for test t. */
  ghost function CountedPairs(db: Db, t: int): set<int> {
    set p | p in db.pairs && db.pairs[p].test == t && PairScore(db, p).Some?
  }

  ghost function InCategory(db: Db, s: set<int>, k: nat): set<int> {
    set p | p in s && Category(db, p) == Some(k)
  }

  ghost function PentaOf(db: Db, t: int): (counts: seq<nat>) {
    seq(5, k requires 0 <= k < 5 => |InCategory(db, CountedPairs(db, t), k)|)
  }

  function Total(counts: seq<nat>): nat
  {
    if counts == [] then 0 else counts[0] + Total(counts[1..])
  }

  /** The score query: games joined with the view by pair id alone, filtered by the game's own
      test_id and validity. */
  ghost function ScoredGames(db: Db, t: int, o: Outcome): set<GameKey> {
    set key | key in db.games && db.games[key].test == t && db.games[key].valid
              && PairScore(db, key.pair).Some? && db.games[key].report.outcome == o
  }

  /** What every transaction keeps about the games table. */
  ghost predicate GamesOk(db: Db) {
    forall key | key in db.games ::
      && key.slot < 2
      && key.pair in db.pairs
      && db.games[key].test == db.pairs[key.pair].test
  }

  /** A row of the view never makes category_from_pair_score throw. */
  lemma ViewScoreHasCategory(db: Db, p: int)
    requires PairScore(db, p).Some?
    ensures Category(db, p).Some? && Category(db, p).value < 5
    ensures 2.0 * PairScore(db, p).value == Category(db, p).value as real
  {
    var a, b := Row(db, p, 0).value.report.outcome, Row(db, p, 1).value.report.outcome;
    var h := HalfPoints(a) + HalfPoints(b);
    assert PairScore(db, p).value * 2.0 == h as real;
    assert Round(h as real) == h by {
      assert (h as real + 0.5).Floor == h;
    }
  }

  /** A row of the view whose pair scored k half points: a completed pair of test t, with two valid games of one client. */
  ghost predicate Scored(db: Db, t: int, p: int, k: nat) {
    && p in db.pairs && db.pairs[p].test == t && db.pairs[p].status == Completed
    && GameKey(p, 0) in db.games && GameKey(p, 1) in db.games
    && var a, b := db.games[GameKey(p, 0)], db.games[GameKey(p, 1)];
    && a.valid && b.valid && a.client == b.client
    && HalfPoints(a.report.outcome) + HalfPoints(b.report.outcome) == k
  }

  /** Entry k of the pentanomial counts the pairs with k half points. */
  lemma PentaCounts(db: Db, t: int, k: nat)
    requires k < 5
    ensures PentaOf(db, t)[k] == |set p | p in db.pairs && Scored(db, t, p, k)|
  {
    forall p | p in db.pairs
      ensures p in InCategory(db, CountedPairs(db, t), k) <==> Scored(db, t, p, k)
    {
      if PairScore(db, p).Some? {
        ViewScoreHasCategory(db, p);
      }
    }
    assert InCategory(db, CountedPairs(db, t), k) == set p | p in db.pairs && Scored(db, t, p, k);
  }

  function HalfPoints(o: Outcome): nat
    ensures HalfPoints(o) as real == 2.0 * Points(o)
    ensures (HalfPoints(o) == 2 <==> o == CandidateWin) && (HalfPoints(o) == 0 <==> o == CandidateLoss)
  {
    match o
    case CandidateWin => 2
    case Draw => 1
    case CandidateLoss => 0
  }

  /** The games of the pairs in s that the score query counts with outcome o. */
  ghost function KeysOver(db: Db, s: set<int>, o: Outcome): set<GameKey> {
    set p, slot | p in s && 0 <= slot < 2 && GameKey(p, slot) in db.games
                  && db.games[GameKey(p, slot)].report.outcome == o :: GameKey(p, slot)
  }

  ghost function Indicator(b: bool): nat { if b then 1 else 0 }

  /** The rows of pair p that have outcome o. */
  ghost function OwnKeys(db: Db, p: int, o: Outcome): set<GameKey>
    requires PairScore(db, p).Some?
  {
    (if Row(db, p, 0).value.report.outcome == o then {GameKey(p, 0)} else {})
    + (if Row(db, p, 1).value.report.outcome == o then {GameKey(p, 1)} else {})
  }

  lemma KeysOverSplit(db: Db, s: set<int>, p: int, o: Outcome)
    requires p in s && PairScore(db, p).Some?
    ensures KeysOver(db, s, o) == KeysOver(db, s - {p}, o) + OwnKeys(db, p, o)
  {
    forall key | key in KeysOver(db, s, o) ensures key in KeysOver(db, s - {p}, o) + OwnKeys(db, p, o) {
      if key.pair == p {
        assert key == GameKey(p, 0) || key == GameKey(p, 1);
      } else {
        assert key.pair in s - {p} && key == GameKey(key.pair, key.slot);
      }
    }
    forall key | key in KeysOver(db, s - {p}, o) + OwnKeys(db, p, o) ensures key in KeysOver(db, s, o) {
      assert key == GameKey(key.pair, key.slot);
    }
  }

  lemma KeysOverStep(db: Db, s: set<int>, p: int, o: Outcome)
    requires p in s && PairScore(db, p).Some?
    ensures |KeysOver(db, s, o)| == |KeysOver(db, s - {p}, o)|
                                    + Indicator(Row(db, p, 0).value.report.outcome == o)
                                    + Indicator(Row(db, p, 1).value.report.outcome == o)
  {
    KeysOverSplit(db, s, p, o);
    var rest, own := KeysOver(db, s - {p}, o), OwnKeys(db, p, o);
    assert rest !! own by {
      forall key | key in own ensures key !in rest { assert key.pair == p; }
    }
    assert |rest + own| == |rest| + |own|;
    assert GameKey(p, 0) != GameKey(p, 1);
  }

  lemma InCategoryStep(db: Db, s: set<int>, p: int, k: nat)
    requires p in s
    ensures |InCategory(db, s, k)| == |InCategory(db, s - {p}, k)| + Indicator(Category(db, p) == Some(k))
  {
    if Category(db, p) == Some(k) {
      assert InCategory(db, s, k) == InCategory(db, s - {p}, k) + {p};
    } else {
      assert InCategory(db, s, k) == InCategory(db, s - {p}, k);
    }
  }

  lemma EmptyCounts(db: Db)
    ensures forall o :: KeysOver(db, {}, o) == {}
    ensures forall k: nat :: InCategory(db, {}, k) == {}
  {
  }

  /** The games over s, their half points, and the pairs of s with and without the weights of their categories. */
  ghost function GamesOver(db: Db, s: set<int>): int {
    |KeysOver(db, s, CandidateWin)| + |KeysOver(db, s, Draw)| + |KeysOver(db, s, CandidateLoss)|
  }

  ghost function HalvesOver(db: Db, s: set<int>): int { 2 * |KeysOver(db, s, CandidateWin)| + |KeysOver(db, s, Draw)| }

  ghost function WeighedOver(db: Db, s: set<int>): int {
    |InCategory(db, s, 1)| + 2 * |InCategory(db, s, 2)| + 3 * |InCategory(db, s, 3)| + 4 * |InCategory(db, s, 4)|
  }

  ghost function CountedOver(db: Db, s: set<int>): int {
    |InCategory(db, s, 0)| + |InCategory(db, s, 1)| + |InCategory(db, s, 2)| + |InCategory(db, s, 3)| + |InCategory(db, s, 4)|
  }

  lemma GamesStep(db: Db, s: set<int>, p: int)
    requires p in s && PairScore(db, p).Some?
    ensures GamesOver(db, s) == GamesOver(db, s - {p}) + 2
    ensures HalvesOver(db, s) == HalvesOver(db, s - {p}) + HalfPoints(Row(db, p, 0).value.report.outcome)
                                 + HalfPoints(Row(db, p, 1).value.report.outcome)
  {
    KeysOverStep(db, s, p, CandidateWin);
    KeysOverStep(db, s, p, Draw);
    KeysOverStep(db, s, p, CandidateLoss);
  }

  lemma CategoriesStep(db: Db, s: set<int>, p: int)
    requires p in s && PairScore(db, p).Some?
    ensures CountedOver(db, s) == CountedOver(db, s - {p}) + 1
    ensures WeighedOver(db, s) == WeighedOver(db, s - {p}) + HalfPoints(Row(db, p, 0).value.report.outcome)
                                  + HalfPoints(Row(db, p, 1).value.report.outcome)
  {
    var c := HalfPoints(Row(db, p, 0).value.report.outcome) + HalfPoints(Row(db, p, 1).value.report.outcome);
    OneCategoryStep(db, s, p, 0, c);
    OneCategoryStep(db, s, p, 1, c);
    OneCategoryStep(db, s, p, 2, c);
    OneCategoryStep(db, s, p, 3, c);
    OneCategoryStep(db, s, p, 4, c);
  }

  lemma OneCategoryStep(db: Db, s: set<int>, p: int, k: nat, c: nat)
    requires p in s && PairScore(db, p).Some?
    requires c == HalfPoints(Row(db, p, 0).value.report.outcome) + HalfPoints(Row(db, p, 1).value.report.outcome)
    ensures |InCategory(db, s, k)| == |InCategory(db, s - {p}, k)| + Indicator(k == c)
  {
    InCategoryStep(db, s, p, k);
    CategoryIs(db, p);
  }

  lemma CategoryIs(db: Db, p: int)
    requires PairScore(db, p).Some?
    ensures Category(db, p) == Some(HalfPoints(Row(db, p, 0).value.report.outcome) + HalfPoints(Row(db, p, 1).value.report.outcome))
  {
    ViewScoreHasCategory(db, p);
  }

  lemma {:induction false} ScoreOver(db: Db, s: set<int>)
    requires forall p | p in s :: PairScore(db, p).Some?
    ensures GamesOver(db, s) == 2 * |s| && HalvesOver(db, s) == WeighedOver(db, s) && CountedOver(db, s) == |s|
    decreases |s|
  {
    if s == {} {
      EmptyCounts(db);
    } else {
      var p := Pick(s);
      ScoreOver(db, s - {p});
      GamesStep(db, s, p);
      CategoriesStep(db, s, p);
    }
  }

  lemma ScoredGamesAreKeysOver(db: Db, t: int, o: Outcome)
    requires GamesOk(db)
    ensures ScoredGames(db, t, o) == KeysOver(db, CountedPairs(db, t), o)
  {
    forall key | key in ScoredGames(db, t, o) ensures key in KeysOver(db, CountedPairs(db, t), o) {
      assert key == GameKey(key.pair, key.slot);
      assert key.pair in CountedPairs(db, t);
    }
    forall key | key in KeysOver(db, CountedPairs(db, t), o) ensures key in ScoredGames(db, t, o) {
      assert key == GameKey(key.pair, 0) || key == GameKey(key.pair, 1);
    }
  }

  lemma TotalOfFive(c: seq<nat>)
    requires |c| == 5
    ensures Total(c) == c[0] + c[1] + c[2] + c[3] + c[4]
  {
    assert Total(c) == c[0] + Total(c[1..]);
    assert Total(c[1..]) == c[1] + Total(c[1..][1..]) && c[1..][1..] == c[2..];
    assert Total(c[2..]) == c[2] + Total(c[2..][1..]) && c[2..][1..] == c[3..];
    assert Total(c[3..]) == c[3] + Total(c[3..][1..]) && c[3..][1..] == c[4..];
    assert Total(c[4..]) == c[4] + Total(c[4..][1..]) && c[4..][1..] == [];
  }

  /** The pentanomial counts every row of the view exactly once. */
  lemma PentaTotal(db: Db, t: int)
    ensures Total(PentaOf(db, t)) == |CountedPairs(db, t)|
  {
    ScoreOver(db, CountedPairs(db, t));
    TotalOfFive(PentaOf(db, t));
  }

  /** Two queries, one story: the score agrees with the pentanomial. */
  lemma ScoreAgreesWithPenta(db: Db, t: int)
    requires GamesOk(db)
    ensures var c := PentaOf(db, t);
            var wins, draws, losses := |ScoredGames(db, t, CandidateWin)|, |ScoredGames(db, t, Draw)|, |ScoredGames(db, t, CandidateLoss)|;
            && wins + draws + losses == 2 * Total(c)
            && 2 * wins + draws == c[1] + 2 * c[2] + 3 * c[3] + 4 * c[4]
  {
    ScoredGamesAreKeysOver(db, t, CandidateWin);
    ScoredGamesAreKeysOver(db, t, Draw);
    ScoredGamesAreKeysOver(db, t, CandidateLoss);
    ScoreOver(db, CountedPairs(db, t));
    PentaTotal(db, t);
  }
}
