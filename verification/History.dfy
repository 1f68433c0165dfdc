/** server/reports.cpp, stats_history: thinning a test's history to at most so many points. */
module History {
  import opened Schema
  import opened Vectors
  import opened Outcomes
  import opened Safety

  /** The distance between two kept points. */
  function Stride(n: nat, maxPoints: nat): real
    requires maxPoints >= 2
  {
    (n as real - 1.0) / (maxPoints as real - 1.0)
  }

  /** i strides, to the nearest whole number. */
  function IndexAt(stride: real, i: nat): int { (i as real * stride + 0.5).Floor }

  /** Where the point of slot i is taken from. */
  function Index(n: nat, maxPoints: nat, i: nat): int
    requires maxPoints >= 2
  {
    IndexAt(Stride(n, maxPoints), i)
  }

  predicate Thins(n: nat, maxPoints: nat) { n > maxPoints && maxPoints >= 2 }

  lemma StrideIsLong(n: nat, maxPoints: nat)
    requires Thins(n, maxPoints)
    ensures Stride(n, maxPoints) >= 1.0
    ensures Stride(n, maxPoints) * (maxPoints as real - 1.0) == n as real - 1.0
  {
    var s, d := Stride(n, maxPoints), maxPoints as real - 1.0;
    assert s * d == n as real - 1.0;
    if s < 1.0 {
      MulLess(d, s, 1.0);
    }
  }

  lemma NextStride(i: nat, s: real, here: real, there: real)
    requires s >= 1.0 && here == i as real * s + 0.5 && there == (i + 1) as real * s + 0.5
    ensures here.Floor < there.Floor
  {
    assert (i + 1) as real == i as real + 1.0;
    assert there == here + s;
  }

  lemma StepsUp(s: real, i: nat)
    requires s >= 1.0
    ensures IndexAt(s, i) < IndexAt(s, i + 1)
  {
    NextStride(i, s, i as real * s + 0.5, (i + 1) as real * s + 0.5);
  }

  lemma {:induction false} Increasing(s: real, i: nat, j: nat)
    requires s >= 1.0 && i < j
    ensures IndexAt(s, i) < IndexAt(s, j)
    decreases j
  {
    StepsUp(s, j - 1);
    if i < j - 1 {
      Increasing(s, i, j - 1);
    }
  }

  lemma FirstIndex(s: real)
    ensures IndexAt(s, 0) == 0
  {
    assert 0 as real * s == 0.0;
  }

  lemma LastIndex(n: nat, maxPoints: nat)
    requires Thins(n, maxPoints)
    ensures Index(n, maxPoints, maxPoints - 1) == n - 1
  {
    StrideIsLong(n, maxPoints);
    var s, last := Stride(n, maxPoints), (maxPoints - 1) as real;
    assert last == maxPoints as real - 1.0;
    assert last * s == n as real - 1.0;
    assert (n as real - 0.5).Floor == n - 1;
  }

  lemma IndexRange(n: nat, maxPoints: nat, i: nat)
    requires Thins(n, maxPoints) && i < maxPoints
    ensures 0 <= Index(n, maxPoints, i) < n
  {
    StrideIsLong(n, maxPoints);
    var s := Stride(n, maxPoints);
    FirstIndex(s);
    LastIndex(n, maxPoints);
    if i > 0 {
      Increasing(s, 0, i);
    }
    if i < maxPoints - 1 {
      Increasing(s, i, maxPoints - 1);
    }
  }

  /** Point k is the nearest to i strides: twice k strides of n - 1 and i of n - 1 over maxPoints - 1 differ by at most
      one, halves going up. */
  predicate IsNearest(n: nat, maxPoints: nat, i: nat, k: int) {
    -(maxPoints - 1) < 2 * (k * (maxPoints - 1) - i * (n - 1)) <= maxPoints - 1
  }

  lemma IndexIsNearest(n: nat, maxPoints: nat, i: nat)
    requires Thins(n, maxPoints)
    ensures IsNearest(n, maxPoints, i, Index(n, maxPoints, i))
  {
    var s, d, m, k := Stride(n, maxPoints), (maxPoints - 1) as real, (n - 1) as real, Index(n, maxPoints, i);
    StrideIsLong(n, maxPoints);
    assert s * d == m by {
      assert d == maxPoints as real - 1.0 && m == n as real - 1.0;
    }
    var y := i as real * s;
    var p, q := k as real * d, y * d;
    ScaledFloor(y, d, k, p, q);
    Rearranged(i as real, s, d, m);
    RealProduct(k, maxPoints - 1);
    RealProduct(i, n - 1);
    assert q == i as real * m;
    WholeNumbers(k * (maxPoints - 1), i * (n - 1), maxPoints - 1, p, q, d);
  }

  lemma Rearranged(i: real, s: real, d: real, m: real)
    requires s * d == m
    ensures i * s * d == i * m
  {
  }

  /** stats_history after its query. */
  method Thin<T>(all: seq<T>, maxPoints: nat) returns (kept: seq<T>)
    ensures !Thins(|all|, maxPoints) ==> kept == all
    ensures Thins(|all|, maxPoints) ==> |kept| == maxPoints && forall i: nat | i < maxPoints ::
              && 0 <= Index(|all|, maxPoints, i) < |all| && kept[i] == all[Index(|all|, maxPoints, i)]
              && IsNearest(|all|, maxPoints, i, Index(|all|, maxPoints, i))
    ensures |kept| <= maxPoints <==> maxPoints >= 2 || |all| <= maxPoints
  {
    if |all| <= maxPoints || maxPoints < 2 {
      return all;
    }
    var step := Stride(|all|, maxPoints);
    kept := [];
    for i := 0 to maxPoints
      invariant |kept| == i
      invariant forall k: nat | k < i :: 0 <= Index(|all|, maxPoints, k) < |all| && kept[k] == all[Index(|all|, maxPoints, k)]
    {
      IndexRange(|all|, maxPoints, i);
      kept := kept + [all[IndexAt(step, i)]];
    }
    forall i: nat | i < maxPoints ensures IsNearest(|all|, maxPoints, i, Index(|all|, maxPoints, i)) {
      IndexIsNearest(|all|, maxPoints, i);
    }
    LastIndex(|all|, maxPoints);
    kept := kept[maxPoints - 1 := all[|all| - 1]];
  }

  /** The kept points are a strictly increasing choice of the points, with both ends. */
  lemma ThinnedKeepsOrder(n: nat, maxPoints: nat)
    requires Thins(n, maxPoints)
    ensures Index(n, maxPoints, 0) == 0 && Index(n, maxPoints, maxPoints - 1) == n - 1
    ensures forall i: nat, j: nat | i < j < maxPoints :: Index(n, maxPoints, i) < Index(n, maxPoints, j)
  {
    StrideIsLong(n, maxPoints);
    FirstIndex(Stride(n, maxPoints));
    LastIndex(n, maxPoints);
    forall i: nat, j: nat | i < j < maxPoints ensures Index(n, maxPoints, i) < Index(n, maxPoints, j) {
      Increasing(Stride(n, maxPoints), i, j);
    }
  }

  /** The chart of a test in a reachable state: thinned or not, its points go from no pair to the
      present number of pairs, strictly upwards. */
  lemma ChartGoesUp(cfg: Config, db: Db, t: int, maxPoints: nat, kept: seq<HistoryPoint>)
    requires Reachable(cfg, db) && t in db.history
    requires !Thins(|db.history[t]|, maxPoints) ==> kept == db.history[t]
    requires Thins(|db.history[t]|, maxPoints) ==> |kept| == maxPoints && forall i: nat | i < maxPoints ::
               var k := Index(|db.history[t]|, maxPoints, i);
               0 <= k < |db.history[t]| && kept[i] == db.history[t][k]
    ensures t in db.stats && kept != [] && kept[0].pairsValid == 0
    ensures kept[|kept| - 1].pairsValid == Total(db.stats[t].penta) && kept[|kept| - 1].llr == db.stats[t].llr
    ensures forall i, j | 0 <= i < j < |kept| :: kept[i].pairsValid < kept[j].pairsValid
  {
    HistoryIsComplete(cfg, db, t);
    if Thins(|db.history[t]|, maxPoints) {
      ThinnedKeepsOrder(|db.history[t]|, maxPoints);
      forall i: nat | i < maxPoints ensures kept[i].pairsValid == Index(|db.history[t]|, maxPoints, i) {
        assert kept[i] == db.history[t][Index(|db.history[t]|, maxPoints, i)];
      }
    }
  }
}
