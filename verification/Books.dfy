/** server/books.cpp: reading opening positions from a book, counting them and sampling from them. A
    book is the lines of its file. */
module Books {
  import opened Schema
  import opened GameText
  import opened Reservoir

  // ---------------------------------------------------------------------------
  // epd_to_fen
  // ---------------------------------------------------------------------------

  predicate NotSpace(c: char) { !IsSpace(c) }

  /** The words operator>> reads one after another. */
  function Words(s: string): seq<string>
    decreases |s|
  {
    var start := RunEnd(s, 0, IsSpace);
    if start == |s| then []
    else
      var end := RunEnd(s, start, NotSpace);
      [s[start..end]] + Words(s[end..])
  }

  predicate IsCounter(s: string) { s != "" && AllOf(s, IsDigit) }

  const BOARD_CHARS := "pnbrqkPNBRQK12345678"

  function CountSlashes(board: string): nat {
    if board == "" then 0 else CountSlashes(board[..|board| - 1]) + if board[|board| - 1] == '/' then 1 else 0
  }

  predicate IsBoard(board: string) {
    && board != "" && board[0] != '#'
    && (forall i | 0 <= i < |board| :: board[i] == '/' || board[i] in BOARD_CHARS)
    && CountSlashes(board) == 7
  }

  /** The loop over the board's characters. */
  method CheckBoard(board: string) returns (ok: bool)
    requires board != ""
    ensures ok <==> IsBoard(board)
  {
    if board[0] == '#' {
      return false;
    }
    var ranks := 1;
    for i := 0 to |board|
      invariant ranks == 1 + CountSlashes(board[..i])
      invariant forall k | 0 <= k < i :: board[k] == '/' || board[k] in BOARD_CHARS
    {
      assert board[..i + 1][..i] == board[..i];
      if board[i] == '/' {
        ranks := ranks + 1;
      } else if board[i] !in BOARD_CHARS {
        return false;
      }
    }
    assert board[..|board|] == board;
    ok := ranks == 8;
  }

  function JoinWords(words: seq<string>): string {
    if words == [] then "" else if |words| == 1 then words[0] else words[0] + " " + JoinWords(words[1..])
  }

  /** A position's FEN with both counters; None for a line that is no position. */
  function EpdToFen(line: string): Option<string> {
    var w := Words(line);
    if |w| < 4 || !IsBoard(w[0]) || (w[1] != "w" && w[1] != "b") then None
    else if |w| >= 6 && IsCounter(w[4]) && IsCounter(w[5]) then Some(JoinWords(w[..6]))
    else Some(JoinWords(w[..4] + ["0", "1"]))
  }

  ghost predicate IsWordSeq(words: seq<string>) {
    forall i | 0 <= i < |words| :: words[i] != "" && AllOf(words[i], NotSpace)
  }

  lemma {:induction false} WordsAreWords(s: string)
    ensures IsWordSeq(Words(s))
    decreases |s|
  {
    var start := RunEnd(s, 0, IsSpace);
    if start < |s| {
      var end := RunEnd(s, start, NotSpace);
      WordsAreWords(s[end..]);
      assert forall k | 0 <= k < end - start :: s[start..end][k] == s[start + k];
    }
  }

  lemma FirstWord(w: string, rest: string)
    requires w != "" && AllOf(w, NotSpace) && (rest == "" || IsSpace(rest[0]))
    ensures Words(w + rest) == [w] + Words(rest)
  {
    var s := w + rest;
    assert forall k | 0 <= k < |w| :: s[k] == w[k];
    assert RunEnd(s, 0, IsSpace) == 0;
    assert rest != "" ==> s[|w|] == rest[0];
    assert RunEnd(s, 0, NotSpace) == |w|;
    assert s[0..|w|] == w && s[|w|..] == rest;
  }

  lemma WordsFrom(s: string, t: string, a: nat, b: nat)
    requires t == " " + s && b == RunEnd(s, 0, IsSpace) && a == b + 1 && a == RunEnd(t, 0, IsSpace)
    ensures Words(t) == Words(s)
  {
    if b < |s| {
      RunShift(s, b, NotSpace);
      var end := RunEnd(s, b, NotSpace);
      assert t[a..end + 1] == s[b..end] && t[end + 1..] == s[end..];
    }
  }

  lemma LeadingSpace(s: string)
    ensures Words(" " + s) == Words(s)
  {
    var t := " " + s;
    SkipOne(t, 0);
    RunShift(s, 0, IsSpace);
    WordsFrom(s, t, RunEnd(t, 0, IsSpace), RunEnd(s, 0, IsSpace));
  }

  lemma SkipOne(t: string, i: nat)
    requires i < |t| && IsSpace(t[i])
    ensures RunEnd(t, i, IsSpace) == RunEnd(t, i + 1, IsSpace)
  {
  }

  lemma {:induction false} RunShift(s: string, i: nat, p: char -> bool)
    requires i <= |s|
    ensures RunEnd(" " + s, i + 1, p) == RunEnd(s, i, p) + 1
    decreases |s| - i
  {
    assert i < |s| ==> (" " + s)[i + 1] == s[i];
    if i < |s| && p(s[i]) {
      RunShift(s, i + 1, p);
    }
  }

  lemma WordThenRest(w: string, rest: string)
    requires w != "" && AllOf(w, NotSpace)
    ensures Words(w + " " + rest) == [w] + Words(rest)
  {
    LeadingSpace(rest);
    FirstWord(w, " " + rest);
    assert w + " " + rest == w + (" " + rest);
  }

  lemma OneWord(w: string)
    requires w != "" && AllOf(w, NotSpace)
    ensures Words(w) == [w]
  {
    FirstWord(w, "");
    assert w + "" == w;
  }

  lemma {:induction false} WordsOfJoin(words: seq<string>)
    requires IsWordSeq(words)
    ensures Words(JoinWords(words)) == words
    decreases |words|
  {
    if |words| == 1 {
      OneWord(words[0]);
    } else if |words| > 1 {
      WordsOfJoin(words[1..]);
      WordThenRest(words[0], JoinWords(words[1..]));
    }
  }

  /** What is read is a full FEN: reading it again gives the same. */
  lemma FenIsFixed(line: string)
    requires EpdToFen(line).Some?
    ensures EpdToFen(EpdToFen(line).value) == EpdToFen(line)
    ensures |Words(EpdToFen(line).value)| == 6 && Words(EpdToFen(line).value)[..4] == Words(line)[..4]
  {
    var w := Words(line);
    WordsAreWords(line);
    var full := if |w| >= 6 && IsCounter(w[4]) && IsCounter(w[5]) then w[..6] else w[..4] + ["0", "1"];
    WordsOfJoin(full);
    assert full[..6] == full;
    assert full[0] == w[0] && full[1] == w[1];
  }

  /** A board: pieces of both sides, runs of up to eight empty squares, and seven slashes. */
  predicate IsPlacement(board: string) {
    && (forall c | c in board :: c in {'p', 'n', 'b', 'r', 'q', 'k', 'P', 'N', 'B', 'R', 'Q', 'K', '/'} || '1' <= c <= '8')
    && multiset(board)['/'] == 7
  }

  lemma {:induction false} SlashesAre(board: string)
    ensures CountSlashes(board) == multiset(board)['/']
    decreases |board|
  {
    if board != "" {
      var n := |board| - 1;
      SlashesAre(board[..n]);
      assert board == board[..n] + [board[n]];
    }
  }

  lemma BoardIff(board: string)
    requires board != ""
    ensures IsBoard(board) <==> IsPlacement(board)
  {
    SlashesAre(board);
    assert forall c :: c in BOARD_CHARS <==>
      c in {'p', 'n', 'b', 'r', 'q', 'k', 'P', 'N', 'B', 'R', 'Q', 'K'} || '1' <= c <= '8';
    if IsBoard(board) {
      forall c | c in board ensures c == '/' || c in BOARD_CHARS {
        var i :| 0 <= i < |board| && board[i] == c;
      }
    }
    if IsPlacement(board) {
      assert forall i | 0 <= i < |board| :: board[i] in board;
    }
  }

  /** A line is a position exactly if it has four words or more, the first a board and the second the side to move. */
  lemma PositionIff(line: string)
    ensures EpdToFen(line).Some? <==> |Words(line)| >= 4 && IsPlacement(Words(line)[0]) && Words(line)[1] in {"w", "b"}
  {
    WordsAreWords(line);
    if |Words(line)| >= 4 {
      BoardIff(Words(line)[0]);
    }
  }

  /** The counters of these words, or those of a new game. */
  function Counters(w: seq<string>): seq<string> {
    if |w| >= 6 && forall c | c in w[4] + w[5] :: '0' <= c <= '9' then w[4..6] else ["0", "1"]
  }

  lemma CountersAre(w: seq<string>)
    requires IsWordSeq(w) && |w| >= 6
    ensures Counters(w) == if IsCounter(w[4]) && IsCounter(w[5]) then w[4..6] else ["0", "1"]
  {
    CountersIff(w[4], w[5]);
  }

  /** The six fields of a position: the line's first four words, and its fifth and sixth if both are numbers, and
      otherwise 0 and 1. */
  lemma FenFields(line: string)
    requires EpdToFen(line).Some?
    ensures Words(EpdToFen(line).value) == Words(line)[..4] + Counters(Words(line))
  {
    var w := Words(line);
    WordsAreWords(line);
    if |w| >= 6 {
      CountersAre(w);
      assert w[..6] == w[..4] + w[4..6];
    }
    WordsOfJoin(if |w| >= 6 && IsCounter(w[4]) && IsCounter(w[5]) then w[..6] else w[..4] + ["0", "1"]);
  }

  lemma CountersIff(a: string, b: string)
    requires a != "" && b != ""
    ensures IsCounter(a) && IsCounter(b) <==> forall c | c in a + b :: '0' <= c <= '9'
  {
    if IsCounter(a) && IsCounter(b) {
      forall c | c in a + b ensures '0' <= c <= '9' {
        assert c in a || c in b;
      }
    }
    if forall c | c in a + b :: '0' <= c <= '9' {
      assert forall i | 0 <= i < |a| :: a[i] in a + b;
      assert forall i | 0 <= i < |b| :: b[i] in a + b;
    }
  }

  // ---------------------------------------------------------------------------
  // The positions of a book
  // ---------------------------------------------------------------------------

  /** The positions, in order. */
  function Positions(lines: seq<string>): seq<string> {
    if lines == [] then []
    else
      var fen := EpdToFen(lines[|lines| - 1]);
      Positions(lines[..|lines| - 1]) + if fen.Some? then [fen.value] else []
  }

  /** The lines the positions come from. */
  function Sources(lines: seq<string>): (numbers: seq<nat>)
    ensures |numbers| == |Positions(lines)|
  {
    if lines == [] then []
    else Sources(lines[..|lines| - 1]) + if EpdToFen(lines[|lines| - 1]).Some? then [|lines| - 1] else []
  }

  lemma {:induction false} SourcesAre(lines: seq<string>)
    ensures forall a | 0 <= a < |Sources(lines)| ::
              && Sources(lines)[a] < |lines| && EpdToFen(lines[Sources(lines)[a]]) == Some(Positions(lines)[a])
    ensures forall a, b | 0 <= a < b < |Sources(lines)| :: Sources(lines)[a] < Sources(lines)[b]
    decreases |lines|
  {
    if lines != [] {
      SourcesAre(lines[..|lines| - 1]);
    }
  }

  method CountPositions(lines: seq<string>) returns (n: nat)
    ensures n == |Positions(lines)|
  {
    n := 0;
    for i := 0 to |lines|
      invariant n == |Positions(lines[..i])|
    {
      assert lines[..i + 1][..i] == lines[..i];
      if EpdToFen(lines[i]).Some? {
        n := n + 1;
      }
    }
    assert lines[..|lines|] == lines;
  }

  /** A book file as the file system shows it. */
  datatype Book = Book(path: string, size: nat, mtime: int, lines: seq<string>)

  /** The static cache of count_book_positions. */
  class PositionCache {
    var cache: map<string, (nat, int, nat)>
    /** The version of each book that was counted last. */
    ghost var counted: map<string, Book>

    ghost predicate Valid()
      reads this
    {
      && cache.Keys == counted.Keys
      && forall path | path in cache ::
           cache[path] == (counted[path].size, counted[path].mtime, |Positions(counted[path].lines)|)
    }

    constructor ()
      ensures Valid() && cache == map[]
    {
      cache, counted := map[], map[];
    }

    /** The file was counted before, and its size and time are as they were then. */
    ghost predicate LooksUnchanged(book: Book)
      reads this
    {
      book.path in counted && counted[book.path].size == book.size && counted[book.path].mtime == book.mtime
    }

    /** count_book_positions: right exactly if the file does not look unchanged, or has as many positions
        as it had when it was counted. */
    method Count(book: Book) returns (n: nat)
      requires Valid()
      modifies this
      ensures Valid()
      ensures n == |Positions(book.lines)| <==>
                old(LooksUnchanged(book)) ==> |Positions(old(counted)[book.path].lines)| == |Positions(book.lines)|
      ensures n == |Positions(if book.path in old(counted) && old(counted)[book.path].size == book.size
                                 && old(counted)[book.path].mtime == book.mtime
                              then old(counted)[book.path].lines else book.lines)|
      ensures book.path in counted && counted.Keys == old(counted).Keys + {book.path}
      ensures !old(LooksUnchanged(book)) ==> counted[book.path] == book
    {
      if book.path in cache && cache[book.path].0 == book.size && cache[book.path].1 == book.mtime {
        return cache[book.path].2;
      }
      n := CountPositions(book.lines);
      cache := cache[book.path := (book.size, book.mtime, n)];
      counted := counted[book.path := book];
    }
  }

  /** A file that changes without changing its size and time keeps its old count. */
  method StaleCount(before: Book, after: Book) returns (first: nat, second: nat)
    requires after.path == before.path && after.size == before.size && after.mtime == before.mtime
    ensures first == second == |Positions(before.lines)|
  {
    var cache := new PositionCache();
    first := cache.Count(before);
    second := cache.Count(after);
  }

  // ---------------------------------------------------------------------------
  // sample_book
  // ---------------------------------------------------------------------------

  /** The draws for n positions; rng gives the generator's numbers in the order of its calls. */
  function Choices(rng: nat -> nat, k: nat, n: nat): (choices: seq<int>)
    ensures |choices| == if n < k then 0 else n - k
    ensures forall t | 0 <= t < |choices| :: 0 <= choices[t] <= k + t
  {
    seq(if n < k then 0 else n - k, t requires 0 <= t => rng(t) % (k + t + 1))
  }

  function Gather(items: seq<string>, kept: seq<int>): seq<string>
    requires forall a | 0 <= a < |kept| :: 0 <= kept[a] < |items|
  {
    seq(|kept|, a requires 0 <= a < |kept| => items[kept[a]])
  }

  lemma KeptInRange(k: nat, n: nat, choices: seq<int>)
    requires n <= k + |choices|
    ensures forall a | 0 <= a < |Kept(k, n, choices)| :: 0 <= Kept(k, n, choices)[a] < n
  {
    KeptDistinct(k, n, choices);
  }

  /** The reservoir after all the items. */
  function Sampled(items: seq<string>, k: nat, rng: nat -> nat): seq<string> {
    KeptInRange(k, |items|, Choices(rng, k, |items|));
    Gather(items, Kept(k, |items|, Choices(rng, k, |items|)))
  }

  lemma ChoicesGrow(rng: nat -> nat, k: nat, n: nat)
    requires n >= k
    ensures Choices(rng, k, n + 1) == Choices(rng, k, n) + [rng(n - k) % (n + 1)]
  {
  }

  lemma KeptGrows(k: nat, n: nat, rng: nat -> nat)
    ensures var before, after := Kept(k, n, Choices(rng, k, n)), Kept(k, n + 1, Choices(rng, k, n + 1));
            if n < k then after == before + [n]
            else var j := rng(n - k) % (n + 1); after == if j < k then before[j := n] else before
  {
    if n >= k {
      ChoicesGrow(rng, k, n);
      KeptPrefix(k, n, Choices(rng, k, n), [rng(n - k) % (n + 1)]);
    }
  }

  /** What one more item does to the reservoir. */
  lemma SampledGrows(items: seq<string>, item: string, k: nat, rng: nat -> nat)
    ensures var before, after, n := Sampled(items, k, rng), Sampled(items + [item], k, rng), |items|;
            if n < k then after == before + [item]
            else var j := rng(n - k) % (n + 1); |before| == k && after == if j < k then before[j := item] else before
  {
    var n := |items|;
    KeptGrows(k, n, rng);
    KeptInRange(k, n, Choices(rng, k, n));
    KeptInRange(k, n + 1, Choices(rng, k, n + 1));
  }

  /** for_each_position, with the positions it hands on. */
  method ReadPositions(lines: seq<string>) returns (items: seq<string>)
    ensures items == Positions(lines)
  {
    items := [];
    for i := 0 to |lines|
      invariant items == Positions(lines[..i])
    {
      assert lines[..i + 1][..i] == lines[..i];
      var fen := EpdToFen(lines[i]);
      if fen.Some? {
        items := items + [fen.value];
      }
    }
    assert lines[..|lines|] == lines;
  }

  /** The callback of sample_book, item by item. */
  method Sample(items: seq<string>, k: nat, rng: nat -> nat) returns (reservoir: seq<string>)
    ensures reservoir == Sampled(items, k, rng)
  {
    reservoir := [];
    var seen, calls := 0, 0;
    while seen < |items|
      invariant seen <= |items| && calls == (if seen < k then 0 else seen - k)
      invariant reservoir == Sampled(items[..seen], k, rng) && |reservoir| == if seen < k then seen else k
    {
      SampledGrows(items[..seen], items[seen], k, rng);
      assert items[..seen + 1] == items[..seen] + [items[seen]];
      if |reservoir| < k {
        reservoir := reservoir + [items[seen]];
      } else {
        var j := rng(calls) % (seen + 1);
        calls := calls + 1;
        if j < k {
          reservoir := reservoir[j := items[seen]];
        }
      }
      seen := seen + 1;
    }
    assert items[..seen] == items;
  }

  function SampleOf(lines: seq<string>, k: nat, rng: nat -> nat): seq<string> { Sampled(Positions(lines), k, rng) }

  /** sample_book */
  method SampleBook(lines: seq<string>, k: nat, rng: nat -> nat) returns (reservoir: seq<string>)
    ensures reservoir == SampleOf(lines, k, rng)
  {
    var items := ReadPositions(lines);
    reservoir := Sample(items, k, rng);
  }

  /** The sample has min(k, number of positions) entries, from pairwise distinct lines. */
  lemma SampleIsDistinct(lines: seq<string>, k: nat, rng: nat -> nat) returns (numbers: seq<nat>)
    ensures |SampleOf(lines, k, rng)| == if |Positions(lines)| < k then |Positions(lines)| else k
    ensures |numbers| == |SampleOf(lines, k, rng)|
    ensures forall a | 0 <= a < |numbers| ::
              numbers[a] < |lines| && EpdToFen(lines[numbers[a]]) == Some(SampleOf(lines, k, rng)[a])
    ensures forall a, b | 0 <= a < b < |numbers| :: numbers[a] != numbers[b]
  {
    var n := |Positions(lines)|;
    var kept := Kept(k, n, Choices(rng, k, n));
    KeptDistinct(k, n, Choices(rng, k, n));
    SourcesAre(lines);
    var sources := Sources(lines);
    numbers := seq(|kept|, a requires 0 <= a < |kept| => sources[kept[a]]);
    forall a, b | 0 <= a < b < |numbers| ensures numbers[a] != numbers[b] {
      assert kept[a] < kept[b] || kept[b] < kept[a];
    }
  }
}
