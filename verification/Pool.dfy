/** server/db/pool.cpp: the connection pool as a monitor. A step is what one thread does while it holds
    the mutex, or the outcome of a connection attempt outside it; threads take steps in any order. */
module Pool {
  import opened Schema

  /** Where a thread is: about to look (it has just called acquire, or was woken), blocked on the
      condition variable, connecting, failing to connect, or holding a connection. */
  datatype Phase = Looking | Waiting | Connecting | Failing | Holding(conn: int)

  datatype State = State(size: nat, created: int, idle: seq<int>, threads: map<int, Phase>, nextConn: int)

  datatype Step =
    | Call(thread: int)
    | Look(thread: int)
    | Spurious(thread: int)
    | Connected(thread: int)
    | ConnectFails(thread: int)
    | RollBack(thread: int, woken: Option<int>)
    | Release(thread: int, open: bool, woken: Option<int>)

  predicate Is(s: State, t: int, phase: Phase) { t in s.threads && s.threads[t] == phase }

  function Blocked(s: State): set<int> { set t | t in s.threads && s.threads[t].Waiting? }

  function Lookers(s: State): set<int> { set t | t in s.threads && s.threads[t].Looking? }

  /** The threads that account for a unit of created_. */
  function Users(s: State): set<int> {
    set t | t in s.threads && (s.threads[t].Connecting? || s.threads[t].Failing? || s.threads[t].Holding?)
  }

  /** notify_one wakes a blocked thread if there is one, and never the caller. */
  predicate Wakes(s: State, woken: Option<int>) {
    match woken
    case None => Blocked(s) == {}
    case Some(t) => t in Blocked(s)
  }

  predicate Enabled(s: State, step: Step) {
    match step
    case Call(t) => t !in s.threads
    case Look(t) => Is(s, t, Looking)
    case Spurious(t) => Is(s, t, Waiting)
    case Connected(t) => Is(s, t, Connecting)
    case ConnectFails(t) => Is(s, t, Connecting)
    case RollBack(t, woken) => Is(s, t, Failing) && Wakes(s, woken)
    case Release(t, _, woken) => t in s.threads && s.threads[t].Holding? && Wakes(s, woken)
  }

  function Wake(s: State, woken: Option<int>): State {
    match woken
    case None => s
    case Some(t) => s.(threads := s.threads[t := Looking])
  }

  function Next(s: State, step: Step): State
    requires Enabled(s, step)
  {
    match step
    case Call(t) => s.(threads := s.threads[t := Looking])
    case Look(t) =>
      if s.idle != [] then
        s.(idle := s.idle[..|s.idle| - 1], threads := s.threads[t := Holding(s.idle[|s.idle| - 1])])
      else if s.created < s.size then s.(created := s.created + 1, threads := s.threads[t := Connecting])
      else s.(threads := s.threads[t := Waiting])
    case Spurious(t) => s.(threads := s.threads[t := Looking])
    case Connected(t) => s.(threads := s.threads[t := Holding(s.nextConn)], nextConn := s.nextConn + 1)
    case ConnectFails(t) => s.(threads := s.threads[t := Failing])
    case RollBack(t, woken) => Wake(s.(created := s.created - 1, threads := s.threads - {t}), woken)
    case Release(t, open, woken) =>
      var back := if open then s.(idle := s.idle + [s.threads[t].conn]) else s.(created := s.created - 1);
      Wake(back.(threads := s.threads - {t}), woken)
  }

  /** Capacity nobody has: idle connections, and connections that may still be made. */
  function Free(s: State): int { |s.idle| + (s.size - s.created) }

  /** A connection is with one holder or idle once. */
  ghost predicate Exclusive(s: State) {
    && (forall i, j | 0 <= i < j < |s.idle| :: s.idle[i] != s.idle[j])
    && (forall i | 0 <= i < |s.idle| :: s.idle[i] < s.nextConn)
    && (forall t | t in s.threads && s.threads[t].Holding? ::
          s.threads[t].conn < s.nextConn && s.threads[t].conn !in s.idle)
    && (forall t, u | t in s.threads && u in s.threads && s.threads[t].Holding? && s.threads[u] == s.threads[t] :: t == u)
  }

  ghost predicate Inv(s: State) {
    && s.created == |s.idle| + |Users(s)|
    && s.created <= s.size
    && Exclusive(s)
    && (Blocked(s) != {} ==> |Lookers(s)| >= Free(s))
  }

  ghost predicate Legal(s: State, run: seq<Step>)
    decreases |run|
  {
    run == [] || (Enabled(s, run[0]) && Legal(Next(s, run[0]), run[1..]))
  }

  ghost function After(s: State, run: seq<Step>): State
    requires Legal(s, run)
    decreases |run|
  {
    if run == [] then s else After(Next(s, run[0]), run[1..])
  }

  function Start(size: nat): State { State(size, 0, [], map[], 0) }

  // ---------------------------------------------------------------------------
  // Counting threads
  // ---------------------------------------------------------------------------

  ghost function Bit(b: bool): int { if b then 1 else 0 }

  predicate Uses(p: Phase) { p.Connecting? || p.Failing? || p.Holding? }

  lemma Toggle(a: set<int>, b: set<int>, t: int, inB: bool)
    requires forall u | u != t :: (u in a) == (u in b)
    requires (t in b) == inB
    ensures |b| == |a| + Bit(inB) - Bit(t in a)
  {
    var rest := a - {t};
    forall u ensures (u in b - {t}) == (u in rest) {
      assert u != t ==> (u in a) == (u in b);
    }
    assert b - {t} == rest;
    assert a == if t in a then rest + {t} else rest;
    assert b == if inB then rest + {t} else rest;
  }

  /** One thread takes on a phase. */
  lemma Moved(s: State, after: State, t: int, phase: Phase)
    requires after.threads == s.threads[t := phase]
    ensures |Users(after)| == |Users(s)| + Bit(Uses(phase)) - Bit(t in s.threads && Uses(s.threads[t]))
    ensures |Lookers(after)| == |Lookers(s)| + Bit(phase.Looking?) - Bit(t in s.threads && s.threads[t].Looking?)
    ensures phase.Waiting? || Blocked(after) <= Blocked(s)
  {
    Toggle(Users(s), Users(after), t, Uses(phase));
    Toggle(Lookers(s), Lookers(after), t, phase.Looking?);
  }

  /** A thread that uses a unit leaves. */
  lemma Left(s: State, after: State, t: int)
    requires t in s.threads && Uses(s.threads[t]) && after.threads == s.threads - {t}
    ensures |Users(after)| == |Users(s)| - 1
    ensures |Lookers(after)| == |Lookers(s)| && Blocked(after) == Blocked(s)
  {
    Toggle(Users(s), Users(after), t, false);
    assert Lookers(after) == Lookers(s);
  }

  // ---------------------------------------------------------------------------
  // Every step keeps the invariant
  // ---------------------------------------------------------------------------

  /** Waking one thread pays for the unit that became free. */
  lemma WakeKeeps(s: State, woken: Option<int>)
    requires s.created == |s.idle| + |Users(s)| && s.created <= s.size && Exclusive(s)
    requires Wakes(s, woken) && (Blocked(s) != {} ==> |Lookers(s)| + 1 >= Free(s))
    ensures Inv(Wake(s, woken))
  {
    if woken.Some? {
      Moved(s, Wake(s, woken), woken.value, Looking);
    }
  }

  lemma LookKeeps(s: State, t: int)
    requires Inv(s) && Enabled(s, Look(t))
    ensures Inv(Next(s, Look(t)))
  {
    var after := Next(s, Look(t));
    Moved(s, after, t, after.threads[t]);
    if s.idle != [] {
      assert forall i | 0 <= i < |after.idle| :: after.idle[i] == s.idle[i];
    }
  }

  lemma ReleaseKeeps(s: State, t: int, open: bool, woken: Option<int>)
    requires Inv(s) && Enabled(s, Release(t, open, woken))
    ensures Inv(Next(s, Release(t, open, woken)))
  {
    var back := if open then s.(idle := s.idle + [s.threads[t].conn]) else s.(created := s.created - 1);
    var mid := back.(threads := s.threads - {t});
    Left(s, mid, t);
    WakeKeeps(mid, woken);
  }

  lemma StepKeeps(s: State, step: Step)
    requires Inv(s) && Enabled(s, step)
    ensures Inv(Next(s, step))
  {
    match step
    case Call(t) => Moved(s, Next(s, step), t, Looking);
    case Look(t) => LookKeeps(s, t);
    case Spurious(t) => Moved(s, Next(s, step), t, Looking);
    case Connected(t) => Moved(s, Next(s, step), t, Holding(s.nextConn));
    case ConnectFails(t) => Moved(s, Next(s, step), t, Failing);
    case RollBack(t, woken) =>
      var mid := s.(created := s.created - 1, threads := s.threads - {t});
      Left(s, mid, t);
      WakeKeeps(mid, woken);
    case Release(t, open, woken) => ReleaseKeeps(s, t, open, woken);
  }

  lemma {:induction false} RunKeeps(s: State, run: seq<Step>)
    requires Inv(s) && Legal(s, run)
    ensures Inv(After(s, run))
    decreases |run|
  {
    if run != [] {
      StepKeeps(s, run[0]);
      RunKeeps(Next(s, run[0]), run[1..]);
    }
  }

  /** In every interleaving, with failed connects and broken returns: the units add up and never
      exceed the size, and no connection has two holders. */
  lemma UnitsAddUp(size: nat, run: seq<Step>)
    requires Legal(Start(size), run)
    ensures var s := After(Start(size), run);
            && |s.idle| + |Users(s)| == s.created <= size
            && (forall t, u | t in s.threads && u in s.threads && t != u && s.threads[t].Holding? :: s.threads[u] != s.threads[t])
            && (forall t | t in s.threads && s.threads[t].Holding? :: s.threads[t].conn !in s.idle)
  {
    RunKeeps(Start(size), run);
    SizeStays(Start(size), run);
  }

  /** No thread stays blocked while capacity is free: unless all of it is in use, at least as many
      threads as there are free units have yet to look. */
  lemma NoLostWakeup(size: nat, run: seq<Step>, t: int)
    requires Legal(Start(size), run) && Is(After(Start(size), run), t, Waiting)
    ensures var s := After(Start(size), run);
            && |Lookers(s)| >= |s.idle| + (size - s.created)
            && (Lookers(s) == {} ==> s.idle == [] && s.created == size)
  {
    RunKeeps(Start(size), run);
    SizeStays(Start(size), run);
    assert t in Blocked(After(Start(size), run));
  }

  lemma {:induction false} SizeStays(s: State, run: seq<Step>)
    requires Legal(s, run)
    ensures After(s, run).size == s.size
    decreases |run|
  {
    if run != [] {
      SizeStays(Next(s, run[0]), run[1..]);
    }
  }

  // ---------------------------------------------------------------------------
  // The code
  // ---------------------------------------------------------------------------

  /** ConnectionPool; the threads' phases are the scheduler's part of the state. */
  class ConnectionPool {
    const size: nat
    var created: int
    var idle: seq<int>
    ghost var threads: map<int, Phase>
    ghost var nextConn: int

    ghost function Snap(): State
      reads this
    {
      State(size, created, idle, threads, nextConn)
    }

    constructor (size: nat)
      ensures this.size == size && Snap() == Start(size) && Inv(Snap())
    {
      this.size, created, idle, threads, nextConn := size, 0, [], map[], 0;
      new;
      assert Users(Snap()) == {} && Blocked(Snap()) == {};
    }

    /** The part of acquire under the lock: the wait's predicate, and taking or reserving. Some is the
        connection; None with reserved means connect now, None without means block. */
    method TryTake(ghost t: int) returns (conn: Option<int>, reserved: bool)
      requires Inv(Snap()) && Enabled(Snap(), Look(t))
      modifies this
      ensures Inv(Snap()) && Snap() == Next(old(Snap()), Look(t))
      ensures conn.Some? <==> threads[t].Holding?
      ensures conn.Some? ==> threads[t].conn == conn.value
      ensures reserved <==> threads[t].Connecting?
    {
      StepKeeps(Snap(), Look(t));
      if idle != [] {
        conn, reserved := Some(idle[|idle| - 1]), false;
        idle := idle[..|idle| - 1];
        threads := threads[t := Holding(conn.value)];
      } else if created < size {
        conn, reserved := None, true;
        created := created + 1;
        threads := threads[t := Connecting];
      } else {
        conn, reserved := None, false;
        threads := threads[t := Waiting];
      }
    }

    /** The catch block of acquire, and the notification. */
    method UndoReservation(ghost t: int, ghost woken: Option<int>)
      requires Inv(Snap()) && Enabled(Snap(), RollBack(t, woken))
      modifies this
      ensures Inv(Snap()) && Snap() == Next(old(Snap()), RollBack(t, woken))
    {
      StepKeeps(Snap(), RollBack(t, woken));
      created := created - 1;
      threads := threads - {t};
      Notify(woken);
    }

    /** release */
    method GiveBack(ghost t: int, conn: int, open: bool, ghost woken: Option<int>)
      requires Inv(Snap()) && Enabled(Snap(), Release(t, open, woken)) && threads[t] == Holding(conn)
      modifies this
      ensures Inv(Snap()) && Snap() == Next(old(Snap()), Release(t, open, woken))
    {
      StepKeeps(Snap(), Release(t, open, woken));
      if open {
        idle := idle + [conn];
      } else {
        created := created - 1;
      }
      threads := threads - {t};
      Notify(woken);
    }

    /** cv_.notify_one() */
    ghost method Notify(woken: Option<int>)
      modifies `threads
      ensures Snap() == Wake(old(Snap()), woken)
    {
      if woken.Some? {
        threads := threads[woken.value := Looking];
      }
    }
  }
}
