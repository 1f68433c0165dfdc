/** client/pgn.cpp: cutting the text a match leaves behind into games. */
module Pgn {
  import opened Schema

  const EVENT: string := "[Event "
  const NEXT_EVENT: string := "\n[Event "

  predicate At(s: string, pat: string, i: int) {
    0 <= i && i + |pat| <= |s| && forall k | 0 <= k < |pat| :: s[i + k] == pat[k]
  }

  /** std::string::find */
  function Find(s: string, pat: string, from: nat): (i: Option<nat>)
    ensures i.Some? ==> from <= i.value && i.value + |pat| <= |s|
    decreases |s| - from
  {
    if from + |pat| > |s| then None
    else if At(s, pat, from) then Some(from)
    else Find(s, pat, from + 1)
  }

  /** It finds the first occurrence at or after from. */
  lemma {:induction false} FindSpec(s: string, pat: string, from: nat)
    ensures var i := Find(s, pat, from);
            && (i.Some? ==> At(s, pat, i.value) && forall j | from <= j < i.value :: !At(s, pat, j))
            && (i.None? ==> forall j | from <= j :: !At(s, pat, j))
    decreases |s| - from
  {
    if from + |pat| <= |s| && !At(s, pat, from) {
      FindSpec(s, pat, from + 1);
    }
  }

  predicate IsNewline(c: char) { c == '\n' || c == '\r' }

  /** Where s[lo..hi] ends without its trailing line ends. */
  function LastInk(s: string, lo: nat, hi: nat): (end: nat)
    requires lo <= hi <= |s|
    ensures lo <= end <= hi
  {
    if lo < hi && IsNewline(s[hi - 1]) then LastInk(s, lo, hi - 1) else hi
  }

  lemma {:induction false} LastInkSpec(s: string, lo: nat, hi: nat)
    requires lo <= hi <= |s|
    ensures LastInk(s, lo, hi) > lo ==> !IsNewline(s[LastInk(s, lo, hi) - 1])
    ensures forall i | LastInk(s, lo, hi) <= i < hi :: IsNewline(s[i])
  {
    if lo < hi && IsNewline(s[hi - 1]) {
      LastInkSpec(s, lo, hi - 1);
    }
  }

  /** The game in s[lo..hi], with one line end. */
  function Piece(s: string, lo: nat, hi: nat): string
    requires lo <= hi <= |s|
  {
    s[lo..LastInk(s, lo, hi)] + "\n"
  }

  /** The games from the cursor on, where one begins. */
  function GamesFrom(pgn: string, pos: nat): seq<string>
    requires pos <= |pgn|
    decreases |pgn| - pos
  {
    match Find(pgn, NEXT_EVENT, pos + 1)
    case None => [Piece(pgn, pos, |pgn|)]
    case Some(next) => [Piece(pgn, pos, next + 1)] + GamesFrom(pgn, next + 1)
  }

  function Split(pgn: string): seq<string> {
    Remaining(pgn, Find(pgn, EVENT, 0))
  }

  function Remaining(pgn: string, pos: Option<nat>): seq<string>
    requires pos.Some? ==> pos.value <= |pgn|
  {
    match pos case None => [] case Some(i) => GamesFrom(pgn, i)
  }

  /** The inner loop: one piece of the text without its trailing line ends. */
  method Cut(pgn: string, pos: nat, end: nat) returns (g: string)
    requires pos <= end <= |pgn|
    ensures g + "\n" == Piece(pgn, pos, end)
  {
    g := pgn[pos..end];
    ghost var last := end;
    while g != [] && IsNewline(g[|g| - 1])
      invariant pos <= last <= end && g == pgn[pos..last]
      invariant LastInk(pgn, pos, last) == LastInk(pgn, pos, end)
    {
      assert g[|g| - 1] == pgn[last - 1];
      g := g[..|g| - 1];
      last := last - 1;
    }
  }

  /** The game at the cursor, and those after it. */
  lemma GamesNext(pgn: string, pos: nat, end: nat, rest: Option<nat>)
    requires pos <= |pgn|
    requires match Find(pgn, NEXT_EVENT, pos + 1)
             case None => end == |pgn| && rest.None?
             case Some(next) => end == next + 1 && rest == Some(next + 1)
    ensures pos <= end <= |pgn| && (rest.Some? ==> rest.value <= |pgn|)
    ensures Remaining(pgn, Some(pos)) == [Piece(pgn, pos, end)] + Remaining(pgn, rest)
  {
  }

  lemma Regroup(games: seq<string>, g: string, rest: seq<string>)
    ensures games + ([g] + rest) == games + [g] + rest
  {
  }

  /** split_pgn_games */
  method SplitPgnGames(pgn: string) returns (games: seq<string>)
    ensures games == Split(pgn)
  {
    games := [];
    var pos := Find(pgn, EVENT, 0);
    ghost var all := Remaining(pgn, pos);
    while pos.Some?
      invariant pos.Some? ==> pos.value <= |pgn|
      invariant all == games + Remaining(pgn, pos)
      decreases if pos.Some? then |pgn| - pos.value + 1 else 0
    {
      var next := Find(pgn, NEXT_EVENT, pos.value + 1);
      var end := if next.Some? then next.value + 1 else |pgn|;
      var after := if next.Some? then Some(next.value + 1) else None;
      GamesNext(pgn, pos.value, end, after);
      var g := Cut(pgn, pos.value, end);
      Regroup(games, g + "\n", Remaining(pgn, after));
      games := games + [g + "\n"];
      pos := after;
    }
  }

  // ---------------------------------------------------------------------------
  // What comes out, and getting it back
  // ---------------------------------------------------------------------------

  /** No Event tag begins a later line. */
  ghost predicate Alone(s: string) {
    forall i | 0 <= i :: !At(s, NEXT_EVENT, i)
  }

  /** One game as the client stores it: it begins with its Event tag, holds no second one at the start
      of a line, and ends with exactly one line end. */
  ghost predicate WellFormed(g: string) {
    && At(g, EVENT, 0)
    && Alone(g)
    && |g| >= 2 && g[|g| - 1] == '\n' && !IsNewline(g[|g| - 2])
  }

  lemma EventHasNoNewline(s: string, i: nat, k: nat)
    requires At(s, EVENT, i) && k < 7
    ensures !IsNewline(s[i + k])
  {
    assert s[i + k] == EVENT[k];
  }

  lemma BeginsWithNewline(s: string, i: nat)
    requires At(s, NEXT_EVENT, i)
    ensures s[i] == '\n' && At(s, EVENT, i + 1)
  {
    assert s[i + 0] == NEXT_EVENT[0];
    forall k | 0 <= k < 7 ensures s[i + 1 + k] == EVENT[k] {
      assert s[i + (k + 1)] == NEXT_EVENT[k + 1] == EVENT[k];
    }
  }

  lemma EventIsNotNext(s: string, i: nat)
    requires At(s, EVENT, i)
    ensures !At(s, NEXT_EVENT, i)
  {
    EventHasNoNewline(s, i, 0);
    if At(s, NEXT_EVENT, i) {
      BeginsWithNewline(s, i);
    }
  }

  /** A pattern found in a prefix, and the other way round. */
  lemma AtPrefix(s: string, t: string, pat: string, i: nat)
    requires s <= t && i + |pat| <= |s|
    ensures At(s, pat, i) == At(t, pat, i)
  {
  }

  lemma AtSlice(s: string, pat: string, i: nat, lo: nat, hi: nat)
    requires lo <= hi <= |s| && i + |pat| <= hi - lo
    ensures At(s[lo..hi], pat, i) == At(s, pat, lo + i)
  {
    assert forall k | 0 <= k < |s[lo..hi]| :: s[lo..hi][k] == s[lo + k];
  }

  /** The text of one game, up to the line end before the next. */
  lemma PieceIsWellFormed(s: string, lo: nat, hi: nat)
    requires lo + 7 <= hi <= |s| && At(s, EVENT, lo)
    requires forall j | lo + 1 <= j && j + 8 <= hi :: !At(s, NEXT_EVENT, j)
    ensures WellFormed(Piece(s, lo, hi))
  {
    var c := LastInk(s, lo, hi);
    LastInkSpec(s, lo, hi);
    EventHasNoNewline(s, lo, 6);
    var body := s[lo..c];
    var g := body + "\n";
    AtSlice(s, EVENT, 0, lo, c);
    AtPrefix(body, g, EVENT, 0);
    EventIsNotNext(s, lo);
    forall i: nat ensures !At(g, NEXT_EVENT, i) {
      if At(g, NEXT_EVENT, i) {
        BeginsWithNewline(g, i);
        EventHasNoNewline(g, i + 1, 6);
        AtPrefix(body, g, NEXT_EVENT, i);
        AtSlice(s, NEXT_EVENT, i, lo, c);
      }
    }
    assert g[|g| - 2] == s[c - 1];
  }

  lemma RoomForEvent(s: string, lo: nat, next: nat)
    requires At(s, EVENT, lo) && At(s, NEXT_EVENT, next) && lo < next
    ensures lo + 7 <= next && At(s, EVENT, next + 1)
  {
    BeginsWithNewline(s, next);
    if next < lo + 7 {
      EventHasNoNewline(s, lo, next - lo);
    }
  }

  /** Every game of the list is well-formed. */
  lemma {:induction false} GamesAreWellFormed(pgn: string, pos: nat)
    requires At(pgn, EVENT, pos)
    ensures forall i | 0 <= i < |GamesFrom(pgn, pos)| :: WellFormed(GamesFrom(pgn, pos)[i])
    decreases |pgn| - pos
  {
    FindSpec(pgn, NEXT_EVENT, pos + 1);
    match Find(pgn, NEXT_EVENT, pos + 1)
    case None =>
      PieceIsWellFormed(pgn, pos, |pgn|);
    case Some(next) =>
      RoomForEvent(pgn, pos, next);
      PieceIsWellFormed(pgn, pos, next + 1);
      GamesAreWellFormed(pgn, next + 1);
  }

  lemma SplitIsWellFormed(pgn: string)
    ensures forall i | 0 <= i < |Split(pgn)| :: WellFormed(Split(pgn)[i])
  {
    FindSpec(pgn, EVENT, 0);
    if Find(pgn, EVENT, 0).Some? {
      GamesAreWellFormed(pgn, Find(pgn, EVENT, 0).value);
    }
  }

  /** The games of a download, an empty line after each. */
  function Join(games: seq<string>): string {
    if games == [] then "" else games[0] + "\n" + Join(games[1..])
  }

  lemma FindIs(s: string, pat: string, from: nat, i: nat)
    requires from <= i && At(s, pat, i) && forall j: nat | from <= j < i :: !At(s, pat, j)
    ensures Find(s, pat, from) == Some(i)
  {
    FindSpec(s, pat, from);
  }

  /** From pos on, the text is the games, a line end after each. */
  ghost predicate Laid(pgn: string, pos: nat, games: seq<string>)
    decreases |games|
  {
    if games == [] then pos == |pgn|
    else
      && Here(pgn, pos, games[0])
      && Laid(pgn, pos + |games[0]| + 1, games[1..])
  }

  ghost predicate Here(pgn: string, pos: nat, g: string) {
    pos + |g| + 1 <= |pgn| && pgn[pos..pos + |g|] == g && pgn[pos + |g|] == '\n'
  }

  lemma BeginsHere(pgn: string, pos: nat, g: string)
    requires Here(pgn, pos, g) && WellFormed(g)
    ensures At(pgn, EVENT, pos)
  {
    AtSlice(pgn, EVENT, 0, pos, pos + |g|);
  }

  lemma NoneInside(pgn: string, pos: nat, g: string, j: nat)
    requires Here(pgn, pos, g) && WellFormed(g) && pos <= j < pos + |g|
    ensures !At(pgn, NEXT_EVENT, j)
  {
    if j + 8 <= pos + |g| {
      AtSlice(pgn, NEXT_EVENT, j - pos, pos, pos + |g|);
    } else if At(pgn, NEXT_EVENT, j) {
      BeginsWithNewline(pgn, j);
      EventHasNoNewline(pgn, j + 1, pos + |g| - j - 1);
    }
  }

  lemma NextHere(pgn: string, pos: nat, g: string, h: string)
    requires Here(pgn, pos, g) && WellFormed(g)
    requires Here(pgn, pos + |g| + 1, h) && WellFormed(h)
    ensures Find(pgn, NEXT_EVENT, pos + 1) == Some(pos + |g|)
  {
    var n := pos + |g|;
    BeginsHere(pgn, n + 1, h);
    NewlineBefore(pgn, n);
    forall j: nat | pos + 1 <= j < n ensures !At(pgn, NEXT_EVENT, j) {
      NoneInside(pgn, pos, g, j);
    }
    FindIs(pgn, NEXT_EVENT, pos + 1, n);
  }

  lemma NewlineBefore(s: string, n: nat)
    requires n < |s| && s[n] == '\n' && At(s, EVENT, n + 1)
    ensures At(s, NEXT_EVENT, n)
  {
    forall k | 0 <= k < 8 ensures s[n + k] == NEXT_EVENT[k] {
      assert k > 0 ==> s[n + 1 + (k - 1)] == EVENT[k - 1] == NEXT_EVENT[k];
    }
  }

  lemma LastHere(pgn: string, pos: nat, g: string)
    requires Here(pgn, pos, g) && WellFormed(g) && pos + |g| + 1 == |pgn|
    ensures Find(pgn, NEXT_EVENT, pos + 1) == None
  {
    FindSpec(pgn, NEXT_EVENT, pos + 1);
    forall j: nat | pos + 1 <= j ensures !At(pgn, NEXT_EVENT, j) {
      if j < pos + |g| {
        NoneInside(pgn, pos, g, j);
      }
    }
  }

  lemma PieceHere(pgn: string, pos: nat, g: string)
    requires Here(pgn, pos, g) && WellFormed(g)
    ensures Piece(pgn, pos, pos + |g| + 1) == g
  {
    var end := pos + |g|;
    assert g[|g| - 1] == pgn[end - 1] && g[|g| - 2] == pgn[end - 2];
    LastInkSpec(pgn, pos, end + 1);
    assert LastInk(pgn, pos, end + 1) == end - 1;
    assert g == pgn[pos..end - 1] + "\n";
  }

  lemma LastGame(pgn: string, pos: nat, g: string)
    requires Here(pgn, pos, g) && WellFormed(g) && pos + |g| + 1 == |pgn|
    ensures GamesFrom(pgn, pos) == [g]
  {
    LastHere(pgn, pos, g);
    PieceHere(pgn, pos, g);
  }

  lemma FirstGame(pgn: string, pos: nat, g: string, h: string)
    requires Here(pgn, pos, g) && WellFormed(g)
    requires Here(pgn, pos + |g| + 1, h) && WellFormed(h)
    ensures GamesFrom(pgn, pos) == [g] + GamesFrom(pgn, pos + |g| + 1)
  {
    NextHere(pgn, pos, g, h);
    PieceHere(pgn, pos, g);
  }

  lemma LaidNext(pgn: string, pos: nat, games: seq<string>)
    requires pos <= |pgn| && |games| > 1 && Laid(pgn, pos, games) && WellFormed(games[0]) && WellFormed(games[1])
    ensures GamesFrom(pgn, pos) == [games[0]] + GamesFrom(pgn, pos + |games[0]| + 1)
    ensures pos + |games[0]| + 1 <= |pgn| && Laid(pgn, pos + |games[0]| + 1, games[1..])
  {
    assert games[1..][0] == games[1];
    FirstGame(pgn, pos, games[0], games[1]);
  }

  lemma {:induction false} GamesOfLaid(pgn: string, pos: nat, games: seq<string>)
    requires pos <= |pgn| && games != [] && Laid(pgn, pos, games)
    requires forall i | 0 <= i < |games| :: WellFormed(games[i])
    ensures GamesFrom(pgn, pos) == games
    decreases |games|
  {
    var g, rest := games[0], games[1..];
    if rest == [] {
      LastGame(pgn, pos, g);
    } else {
      LaidNext(pgn, pos, games);
      GamesOfLaid(pgn, pos + |g| + 1, rest);
      assert games == [g] + rest;
    }
  }

  lemma {:induction false} JoinIsLaid(before: string, games: seq<string>)
    ensures Laid(before + Join(games), |before|, games)
    decreases |games|
  {
    if games != [] {
      var g := games[0];
      var pgn, longer := before + Join(games), before + (g + "\n");
      assert pgn == longer + Join(games[1..]);
      assert pgn[|before|..|before| + |g|] == g;
      JoinIsLaid(longer, games[1..]);
    }
  }

  /** Splitting the joined text gives back exactly the games. */
  lemma SplitOfJoin(games: seq<string>)
    requires forall i | 0 <= i < |games| :: WellFormed(games[i])
    ensures Split(Join(games)) == games
  {
    JoinIsLaid("", games);
    assert "" + Join(games) == Join(games);
    if games != [] {
      BeginsHere(Join(games), 0, games[0]);
      FindIs(Join(games), EVENT, 0, 0);
      GamesOfLaid(Join(games), 0, games);
    }
  }

  /** Splitting is idempotent: a game already cut out stays as it is. */
  lemma SplitAgain(pgn: string)
    ensures Split(Join(Split(pgn))) == Split(pgn)
  {
    SplitIsWellFormed(pgn);
    SplitOfJoin(Split(pgn));
  }

  // ---------------------------------------------------------------------------
  // Nothing but line ends is lost
  // ---------------------------------------------------------------------------

  function Ink(s: string): string {
    if s == [] then "" else if IsNewline(s[0]) then Ink(s[1..]) else [s[0]] + Ink(s[1..])
  }

  lemma {:induction false} InkOfConcat(a: string, b: string)
    ensures Ink(a + b) == Ink(a) + Ink(b)
    decreases |a|
  {
    if a == [] {
      assert a + b == b;
    } else {
      assert (a + b)[1..] == a[1..] + b;
      InkOfConcat(a[1..], b);
    }
  }

  lemma {:induction false} NoInk(s: string)
    requires forall i | 0 <= i < |s| :: IsNewline(s[i])
    ensures Ink(s) == ""
    decreases |s|
  {
    if s != [] {
      NoInk(s[1..]);
    }
  }

  lemma InkOfBlank(rest: string)
    ensures Ink("\n\n" + rest) == Ink(rest)
  {
    InkOfConcat("\n\n", rest);
    NoInk("\n\n");
  }

  lemma InkOfPiece(s: string, lo: nat, hi: nat, rest: string)
    requires lo <= hi <= |s|
    ensures Ink(Piece(s, lo, hi) + "\n" + rest) == Ink(s[lo..hi]) + Ink(rest)
  {
    var c := LastInk(s, lo, hi);
    LastInkSpec(s, lo, hi);
    InkOfFront(s, lo, c, hi);
    assert Piece(s, lo, hi) + "\n" + rest == s[lo..c] + ("\n\n" + rest);
    InkOfConcat(s[lo..c], "\n\n" + rest);
    InkOfBlank(rest);
  }

  lemma InkOfFront(s: string, lo: nat, c: nat, hi: nat)
    requires lo <= c <= hi <= |s| && forall i | c <= i < hi :: IsNewline(s[i])
    ensures Ink(s[lo..hi]) == Ink(s[lo..c])
  {
    assert s[lo..hi] == s[lo..c] + s[c..hi];
    InkOfConcat(s[lo..c], s[c..hi]);
    NoInk(s[c..hi]);
  }

  lemma {:induction false} InkOfGames(pgn: string, pos: nat)
    requires pos <= |pgn|
    ensures Ink(Join(GamesFrom(pgn, pos))) == Ink(pgn[pos..])
    decreases |pgn| - pos
  {
    match Find(pgn, NEXT_EVENT, pos + 1)
    case None =>
      JoinCons(Piece(pgn, pos, |pgn|), []);
      InkOfPiece(pgn, pos, |pgn|, "");
      assert pgn[pos..] == pgn[pos..|pgn|];
    case Some(next) =>
      JoinCons(Piece(pgn, pos, next + 1), GamesFrom(pgn, next + 1));
      InkOfPiece(pgn, pos, next + 1, Join(GamesFrom(pgn, next + 1)));
      InkOfGames(pgn, next + 1);
      assert pgn[pos..] == pgn[pos..next + 1] + pgn[next + 1..];
      InkOfConcat(pgn[pos..next + 1], pgn[next + 1..]);
  }

  lemma JoinCons(g: string, games: seq<string>)
    ensures Join([g] + games) == g + "\n" + Join(games)
  {
    assert ([g] + games)[1..] == games;
  }

  /** Everything from the first Event tag on reaches some game, in order; only line ends differ. */
  lemma SplitKeepsInk(pgn: string)
    ensures match Find(pgn, EVENT, 0)
            case None => Split(pgn) == []
            case Some(pos) => Ink(Join(Split(pgn))) == Ink(pgn[pos..])
  {
    var pos := Find(pgn, EVENT, 0);
    if pos.Some? {
      InkOfGames(pgn, pos.value);
    }
  }
}
