/** server/books.cpp, sample_book: reservoir sampling (algorithm R) over the positions of a book. */
module Reservoir {
  /** Which of the first n positions the reservoir holds, slot by slot; position t >= k was met with
      draw choices[t - k], in 0..t. */
  function Kept(k: nat, n: nat, choices: seq<int>): (kept: seq<int>)
    requires n <= k + |choices|
    ensures |kept| == if n < k then n else k
    decreases n
  {
    if n <= k then seq(n, i => i)
    else
      var before := Kept(k, n - 1, choices);
      var j := choices[n - 1 - k];
      if 0 <= j < k then before[j := n - 1] else before
  }

  /** Its members are distinct positions among the first n. */
  lemma {:induction false} KeptDistinct(k: nat, n: nat, choices: seq<int>)
    requires n <= k + |choices|
    ensures forall a | 0 <= a < |Kept(k, n, choices)| :: 0 <= Kept(k, n, choices)[a] < n
    ensures forall a, b | 0 <= a < b < |Kept(k, n, choices)| :: Kept(k, n, choices)[a] != Kept(k, n, choices)[b]
    decreases n
  {
    if n > k {
      KeptDistinct(k, n - 1, choices);
    }
  }

  lemma {:induction false} KeptPrefix(k: nat, n: nat, choices: seq<int>, more: seq<int>)
    requires n <= k + |choices|
    ensures Kept(k, n, choices + more) == Kept(k, n, choices)
    decreases n
  {
    if n > k {
      KeptPrefix(k, n - 1, choices, more);
    }
  }

  /** Position i is in the sample after the draws d. */
  predicate Holds(k: nat, i: int, d: seq<int>) { i in Kept(k, k + |d|, d) }

  function SlotOf(kept: seq<int>, i: int): (slot: int)
    requires i in kept
    ensures 0 <= slot < |kept| && kept[slot] == i
  {
    if kept[|kept| - 1] == i then |kept| - 1 else SlotOf(kept[..|kept| - 1], i)
  }

  lemma KeptNext(k: nat, d: seq<int>, j: int)
    requires 0 <= j <= k + |d|
    ensures Kept(k, k + |d| + 1, d + [j]) == if j < k then Kept(k, k + |d|, d)[j := k + |d|] else Kept(k, k + |d|, d)
  {
    KeptPrefix(k, k + |d|, d, [j]);
    assert (d + [j])[|d|] == j;
  }

  /** An old position stays in the sample unless the draw hits its slot. */
  lemma OldStays(k: nat, i: int, d: seq<int>, j: int)
    requires 0 <= j <= k + |d| && 0 <= i < k + |d|
    ensures Holds(k, i, d + [j]) <==> Holds(k, i, d) && j != SlotOf(Kept(k, k + |d|, d), i)
  {
    KeptNext(k, d, j);
    KeptDistinct(k, k + |d|, d);
    var before, after := Kept(k, k + |d|, d), Kept(k, k + |d| + 1, d + [j]);
    if i in before && j != SlotOf(before, i) {
      var slot := SlotOf(before, i);
      assert after[slot] == i;
    }
    if i in after {
      var slot :| 0 <= slot < |after| && after[slot] == i;
      assert before[slot] == i;
    }
  }

  /** The newest position is in the sample exactly if its draw hit a slot. */
  lemma NewEnters(k: nat, d: seq<int>, j: int)
    requires 0 <= j <= k + |d|
    ensures Holds(k, k + |d|, d + [j]) <==> j < k
  {
    KeptNext(k, d, j);
    KeptDistinct(k, k + |d|, d);
    if j < k {
      assert Kept(k, k + |d| + 1, d + [j])[j] == k + |d|;
    }
  }

  // ---------------------------------------------------------------------------
  // Counting
  // ---------------------------------------------------------------------------

  /** In how many ways the draws d can be completed to m draws with property p; draw t is one of the
      k + t + 1 numbers 0 .. k + t. */
  ghost function Ways(k: nat, m: nat, d: seq<int>, p: seq<int> -> bool): nat
    decreases m - |d|, 0
  {
    if |d| >= m then if p(d) then 1 else 0
    else WaysBelow(k, m, d, p, k + |d| + 1)
  }

  /** The same with the next draw below b. */
  ghost function WaysBelow(k: nat, m: nat, d: seq<int>, p: seq<int> -> bool, b: nat): nat
    requires |d| < m
    decreases m - |d| - 1, b + 1
  {
    if b == 0 then 0 else WaysBelow(k, m, d, p, b - 1) + Ways(k, m, d + [b - 1], p)
  }

  ghost function Anything(): seq<int> -> bool { d => true }

  ghost function Keeping(k: nat, i: int): seq<int> -> bool { d => Holds(k, i, d) }

  /** (k + t) (k + t + 1) ... (k + m - 1) */
  function Product(k: nat, t: nat, m: nat): nat
    decreases m - t
  {
    if t >= m then 1 else (k + t) * Product(k, t + 1, m)
  }

  /** If each of the next draws below b but those in a hole has c completions, and the hole none. */
  lemma {:induction false} EqualWays(k: nat, m: nat, d: seq<int>, p: seq<int> -> bool, b: nat, c: nat, hole: int)
    requires |d| < m
    requires forall j | 0 <= j < b :: Ways(k, m, d + [j], p) == if j == hole then 0 else c
    ensures WaysBelow(k, m, d, p, b) == (if 0 <= hole < b then b - 1 else b) * c
    decreases b
  {
    if b > 0 {
      EqualWays(k, m, d, p, b - 1, c, hole);
      assert Ways(k, m, d + [b - 1], p) == if b - 1 == hole then 0 else c;
      OneMore(b - 1, c);
      OneMore(b - 2, c);
    }
  }

  /** The next draws below k have c completions each, the others none. */
  lemma {:induction false} LowWays(k: nat, m: nat, d: seq<int>, p: seq<int> -> bool, b: nat, c: nat)
    requires |d| < m
    requires forall j | 0 <= j < b :: Ways(k, m, d + [j], p) == if j < k then c else 0
    ensures WaysBelow(k, m, d, p, b) == (if b < k then b else k) * c
    decreases b
  {
    if b > 0 {
      LowWays(k, m, d, p, b - 1, c);
      assert Ways(k, m, d + [b - 1], p) == if b - 1 < k then c else 0;
      OneMore(b - 1, c);
    }
  }

  lemma OneMore(n: int, c: int)
    ensures n * c + c == (n + 1) * c
  {
  }

  /** There are (k + 1) (k + 2) ... (k + m) sequences of m draws in all. */
  lemma {:induction false} AllWays(k: nat, m: nat, d: seq<int>)
    requires |d| <= m
    ensures Ways(k, m, d, Anything()) == Product(k + 1, |d|, m)
    decreases m - |d|
  {
    if |d| < m {
      forall j | 0 <= j < k + |d| + 1
        ensures Ways(k, m, d + [j], Anything()) == if j == -1 then 0 else Product(k + 1, |d| + 1, m)
      {
        AllWays(k, m, d + [j]);
      }
      EqualWays(k, m, d, Anything(), k + |d| + 1, Product(k + 1, |d| + 1, m), -1);
    }
  }

  /** Once position i has been met it stays in (k + t) ... (k + m - 1) ways if it is in now, and in none
      otherwise. */
  lemma {:induction false} OldWays(k: nat, m: nat, d: seq<int>, i: int)
    requires |d| <= m && 0 <= i < k + |d|
    ensures Ways(k, m, d, Keeping(k, i)) == if Holds(k, i, d) then Product(k, |d|, m) else 0
    decreases m - |d|
  {
    if |d| < m {
      var slot := if Holds(k, i, d) then SlotOf(Kept(k, k + |d|, d), i) else -1;
      var c := if Holds(k, i, d) then Product(k, |d| + 1, m) else 0;
      forall j | 0 <= j < k + |d| + 1 ensures Ways(k, m, d + [j], Keeping(k, i)) == if j == slot then 0 else c {
        OldWays(k, m, d + [j], i);
        OldStays(k, i, d, j);
      }
      EqualWays(k, m, d, Keeping(k, i), k + |d| + 1, c, slot);
    }
  }

  lemma {:induction false} Telescope(k: nat, t: nat, m: nat)
    requires t <= m
    ensures Product(k, t, m) * (k + m) == (k + t) * Product(k + 1, t, m)
    decreases m - t
  {
    if t < m {
      Telescope(k, t + 1, m);
      Regroup(k + t, Product(k, t + 1, m), k + m, k + t + 1, Product(k + 1, t + 1, m));
    }
  }

  lemma Regroup(a: int, x: int, n: int, b: int, y: int)
    requires x * n == b * y
    ensures (a * x) * n == a * (b * y)
  {
  }

  lemma Regroup3(a: int, b: int, c: int)
    ensures (a * b) * c == b * (a * c)
  {
  }

  /** The position met next will be in the sample in k out of n of the ways. */
  lemma NextWays(k: nat, m: nat, d: seq<int>)
    requires |d| < m
    ensures Ways(k, m, d, Keeping(k, k + |d|)) * (k + m) == k * Product(k + 1, |d|, m)
  {
    var t := |d|;
    var c, rest := Product(k, t + 1, m), Product(k + 1, t + 1, m);
    forall j | 0 <= j < k + t + 1 ensures Ways(k, m, d + [j], Keeping(k, k + t)) == if j < k then c else 0 {
      OldWays(k, m, d + [j], k + t);
      NewEnters(k, d, j);
    }
    LowWays(k, m, d, Keeping(k, k + t), k + t + 1, c);
    Telescope(k, t + 1, m);
    Regroup(k, c, k + m, k + t + 1, rest);
  }

  lemma LaterArithmetic(b: int, c: int, n: int, k: int, rest: int)
    requires c * n == k * rest
    ensures (b * c) * n == k * (b * rest)
  {
    Regroup(b, c, n, k, rest);
    Regroup3(k, b, rest);
    assert b * (k * rest) == k * (b * rest);
  }

  /** A position not met yet will be in the sample in k out of n of the ways. */
  lemma {:induction false} NewWays(k: nat, m: nat, d: seq<int>, i: int)
    requires |d| < m && k + |d| <= i < k + m
    ensures Ways(k, m, d, Keeping(k, i)) * (k + m) == k * Product(k + 1, |d|, m)
    decreases m - |d|
  {
    var t := |d|;
    if i == k + t {
      NextWays(k, m, d);
    } else {
      var c, rest := Ways(k, m, d + [0], Keeping(k, i)), Product(k + 1, t + 1, m);
      NewWays(k, m, d + [0], i);
      forall j | 0 <= j < k + t + 1 ensures Ways(k, m, d + [j], Keeping(k, i)) == if j == -1 then 0 else c {
        NewWays(k, m, d + [j], i);
        SameFactor(Ways(k, m, d + [j], Keeping(k, i)), c, k + m);
      }
      EqualWays(k, m, d, Keeping(k, i), k + t + 1, c, -1);
      LaterArithmetic(k + t + 1, c, k + m, k, rest);
    }
  }

  lemma SameFactor(x: int, y: int, n: int)
    requires n > 0 && x * n == y * n
    ensures x == y
  {
  }

  /** Over all equally likely sequences of draws, each of the n = k + m positions is in the sample for
      exactly k out of n of them. */
  lemma EachPositionEquallyLikely(k: nat, m: nat, i: int)
    requires 0 <= i < k + m
    ensures Ways(k, m, [], Keeping(k, i)) * (k + m) == k * Ways(k, m, [], Anything())
  {
    AllWays(k, m, []);
    if i < k {
      assert Kept(k, k, [])[i] == i;
      OldWays(k, m, [], i);
      Telescope(k, 0, m);
    } else {
      NewWays(k, m, [], i);
    }
  }
}
