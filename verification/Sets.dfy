/** Finite sets: choosing an element, and sums over a set that do not depend on its order. */
module Sets {

  ghost function Pick<T>(s: set<T>): (p: T)
    requires s != {}
    ensures p in s
  {
    var p :| p in s;
    p
  }

  ghost function Min(s: set<int>): (m: int)
    requires s != {}
    ensures m in s && forall x | x in s :: m <= x
    decreases |s|
  {
    var p := Pick(s);
    if s - {p} == {} then
      assert s == {p};
      p
    else
      var m := Min(s - {p});
      assert forall x | x in s :: x == p || x in s - {p};
      if p < m then p else m
  }

  /** The n numbers from start on. */
  function Range(start: int, n: nat): (r: set<int>)
    ensures |r| == n
    ensures forall x :: x in r <==> start <= x < start + n
  {
    if n == 0 then {} else Range(start, n - 1) + {start + n - 1}
  }

  ghost function Sum(s: set<int>, f: int -> int): int
    decreases |s|
  {
    if s == {} then 0 else var p := Pick(s); f(p) + Sum(s - {p}, f)
  }

  lemma {:induction false} SumLe(s: set<int>, f: int -> int, g: int -> int)
    requires forall x | x in s :: f(x) <= g(x)
    ensures Sum(s, f) <= Sum(s, g)
    decreases |s|
  {
    if s != {} {
      SumLe(s - {Pick(s)}, f, g);
    }
  }

  lemma {:induction false} SumConst(s: set<int>, f: int -> int, c: int)
    requires forall x | x in s :: f(x) == c
    ensures Sum(s, f) == |s| * c
    decreases |s|
  {
    if s != {} {
      SumConst(s - {Pick(s)}, f, c);
      assert |s| * c == (|s| - 1) * c + c;
    }
  }

  /** Adding up the change of f over the members of a subset m. */
  lemma {:induction false} SumStep(s: set<int>, m: set<int>, n: set<int>, f: int -> int, g: int -> int)
    requires m <= s && n <= s
    requires forall x | x in s :: g(x) + (if x in m then 1 else 0) <= f(x) + (if x in n then 1 else 0)
    ensures Sum(s, g) + |m| <= Sum(s, f) + |n|
    decreases |s|
  {
    if s != {} {
      var p := Pick(s);
      SumStep(s - {p}, m - {p}, n - {p}, f, g);
    }
  }

  lemma {:induction false} SumMember(s: set<int>, f: int -> int, x: int)
    requires forall y | y in s :: f(y) >= 0
    requires x in s
    ensures Sum(s, f) >= f(x)
    decreases |s|
  {
    var p := Pick(s);
    if p == x {
      var zero := (y: int) => 0;
      SumConst(s - {p}, zero, 0);
      SumLe(s - {p}, zero, f);
    } else {
      SumMember(s - {p}, f, x);
    }
  }

  /** Any element, chosen by a running program. */
  method Choose<T(==)>(s: set<T>) returns (x: T)
    requires s != {}
    ensures x in s
  {
    x :| x in s;
  }

  /** Taking one element off the work left adds it to the work done. */
  lemma DropOne<T>(x: set<T>, rest: set<T>, e: T)
    requires e in rest
    ensures |x - (rest - {e})| == |x - rest| + if e in x then 1 else 0
  {
    if e in x {
      assert x - (rest - {e}) == x - rest + {e};
    } else {
      assert x - (rest - {e}) == x - rest;
    }
  }

  lemma NothingDone<T>(x: set<T>, all: set<T>)
    requires x <= all
    ensures |x - all| == 0
  {
    assert x - all == {};
  }

  lemma AllDone<T>(x: set<T>)
    ensures |x - {}| == |x|
  {
    assert x - {} == x;
  }

  lemma SubsetSize<T>(small: set<T>, big: set<T>)
    requires small <= big
    ensures |small| <= |big| && (|small| == |big| ==> big - small == {})
    ensures big - small == {} ==> |small| == |big|
  {
    assert big == small + (big - small);
    assert |big| == |small| + |big - small|;
    if big - small == {} {
      assert big == small;
    }
  }
}
