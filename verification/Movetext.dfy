/** The moves of a game as a match writes them, each with its comment, and that usage_by_color
    (client/pgn.cpp) reads the comments back. */
module Movetext {
  import opened Schema
  import opened Pgn
  import opened GameText
  import opened TimeControl
  import opened Usage

  /** A comment: {score/depth seconds, n=nodes and more}. The seconds are whole.decimals. */
  datatype Comment = Comment(score: string, whole: string, decimals: string, nodes: nat, tail: string)

  datatype Move = Move(san: string, comment: Comment)

  predicate NoBraces(s: string) { forall i | 0 <= i < |s| :: s[i] != '{' && s[i] != '}' }

  predicate IsScore(s: string) { NoBraces(s) && forall i | 0 <= i < |s| :: s[i] != '=' && !IsSpace(s[i]) }

  predicate IsNumber(s: string) { s != "" && AllOf(s, IsDigit) }

  predicate WritableComment(c: Comment) {
    && IsScore(c.score) && IsNumber(c.whole) && IsNumber(c.decimals)
    && NoBraces(c.tail) && (c.tail == "" || !IsDigit(c.tail[0]))
  }

  predicate WritableMoves(moves: seq<Move>) {
    forall i | 0 <= i < |moves| :: NoBraces(moves[i].san) && WritableComment(moves[i].comment)
  }

  function Time(c: Comment): string { c.whole + "." + c.decimals }

  /** The comment without its closing brace. */
  function CommentText(c: Comment): string {
    "{" + c.score + " " + Time(c) + "s, n=" + Decimal(c.nodes) + c.tail
  }

  function MoveText(m: Move): string { m.san + CommentText(m.comment) + "}" }

  function PrintMoves(moves: seq<Move>, ending: string): string {
    if moves == [] then ending else MoveText(moves[0]) + PrintMoves(moves[1..], ending)
  }

  function Seconds(c: Comment): Number
    requires WritableComment(c)
  {
    assert AllOf(c.whole + c.decimals, IsDigit);
    Number(Value(c.whole + c.decimals), |c.decimals|)
  }

  function Said(c: Comment): Note
    requires WritableComment(c)
  {
    Note(c.nodes, Seconds(c))
  }

  // ---------------------------------------------------------------------------
  // Reading one comment
  // ---------------------------------------------------------------------------

  lemma {:induction false} FirstNodesIs(s: string, k: nat, p: nat)
    requires k <= p < |s| && NodesAt(s, p).Some? && forall j: nat | k <= j < p :: NodesAt(s, j).None?
    ensures FirstNodes(s, k) == NodesAt(s, p)
    decreases p - k
  {
    if k < p {
      FirstNodesIs(s, k + 1, p);
    }
  }

  lemma {:induction false} FirstSecondsIs(s: string, k: nat, p: nat)
    requires k <= p < |s| && SecondsAt(s, p).Some? && forall j: nat | k <= j < p :: SecondsAt(s, j).None?
    ensures FirstSeconds(s, k) == SecondsAt(s, p)
    decreases p - k
  {
    if k < p {
      FirstSecondsIs(s, k + 1, p);
    }
  }

  /** The middle of a text, by its place. */
  lemma Middle(s: string, a: string, b: string, c: string)
    requires s == a + (b + c)
    ensures At(s, b, |a|) && s[|a|..|a| + |b|] == b && s[..|a|] == a
    ensures c != "" ==> s[|a| + |b|] == c[0]
  {
    assert forall k | 0 <= k < |b| :: s[|a| + k] == b[k];
  }

  lemma DigitsRun(s: string, i: nat, digits: string)
    requires At(s, digits, i) && AllOf(digits, IsDigit) && (i + |digits| == |s| || !IsDigit(s[i + |digits|]))
    ensures RunEnd(s, i, IsDigit) == i + |digits|
    ensures s[i..i + |digits|] == digits
  {
    assert forall k | i <= k < i + |digits| :: s[k] == digits[k - i];
  }

  lemma SliceIs(s: string, i: nat, digits: string, j: nat)
    requires At(s, digits, i) && AllOf(digits, IsDigit) && j == i + |digits| && j <= |s|
    ensures (forall k | i <= k < j :: IsDigit(s[k])) && Slice(s, i, j) == digits
  {
    assert forall k | i <= k < j :: s[k] == digits[k - i];
  }

  /** A space, whole.decimals, an s and a comma, at p. */
  lemma TimeAt(s: string, p: nat, whole: string, decimals: string, w: nat, e: nat)
    requires IsNumber(whole) && IsNumber(decimals) && w == p + 1 + |whole| && e == w + 1 + |decimals| && e + 1 < |s|
    requires s[p] == ' ' && s[w] == '.' && s[e] == 's' && s[e + 1] == ',' && At(s, whole, p + 1) && At(s, decimals, w + 1)
    ensures AllOf(whole + decimals, IsDigit)
    ensures SecondsAt(s, p) == Some(Number(Value(whole + decimals), |decimals|))
  {
    SliceIs(s, p + 1, whole, w);
    SliceIs(s, w + 1, decimals, e);
    PointTime(s, p, w, e + 1);
  }

  lemma TimePlace(s: string, before: string, whole: string, decimals: string, rest: string, p: nat, w: nat, e: nat)
    requires s == before + (" " + (whole + ("." + (decimals + ("s," + rest)))))
    requires p == |before| && w == p + 1 + |whole| && e == w + 1 + |decimals|
    ensures e + 1 < |s| && s[p] == ' ' && s[w] == '.' && s[e] == 's' && s[e + 1] == ','
    ensures At(s, whole, p + 1) && At(s, decimals, w + 1) && s[..p] == before
  {
    Middle(s, before, " ", whole + ("." + (decimals + ("s," + rest))));
    assert s == (before + " ") + (whole + ("." + (decimals + ("s," + rest))));
    Middle(s, before + " ", whole, "." + (decimals + ("s," + rest)));
    assert s == (before + " " + whole + ".") + (decimals + ("s," + rest));
    Middle(s, before + " " + whole + ".", decimals, "s," + rest);
    assert s == (before + " " + whole + "." + decimals) + ("s," + rest);
    Middle(s, before + " " + whole + "." + decimals, "s,", rest);
  }

  lemma TimeIsRead(s: string, before: string, whole: string, decimals: string, rest: string)
    requires s == before + (" " + (whole + ("." + (decimals + ("s," + rest))))) && IsNumber(whole) && IsNumber(decimals)
    requires forall i | 0 <= i < |before| :: !IsSpace(before[i])
    ensures AllOf(whole + decimals, IsDigit)
    ensures FirstSeconds(s, 0) == Some(Number(Value(whole + decimals), |decimals|))
  {
    var p, w := |before|, |before| + 1 + |whole|;
    TimePlace(s, before, whole, decimals, rest, p, w, w + 1 + |decimals|);
    TimeAt(s, p, whole, decimals, w, w + 1 + |decimals|);
    assert forall j | 0 <= j < p :: s[j] == s[..p][j];
    FirstSecondsIs(s, 0, p);
  }

  lemma NodesExact(s: string, p: nat, digits: string)
    requires 0 < p && p + 2 + |digits| <= |s| && s[p - 1] == ' ' && s[p] == 'n' && s[p + 1] == '='
    requires IsNumber(digits) && At(s, digits, p + 2) && (p + 2 + |digits| == |s| || !IsDigit(s[p + 2 + |digits|]))
    ensures NodesAt(s, p) == Some(Value(digits))
  {
    DigitsRun(s, p + 2, digits);
    assert s[p + 2] == digits[0];
  }

  /** n=digits at p, after a space, with no equals sign before. */
  lemma NodesHere(s: string, p: nat, digits: string)
    requires 0 < p && p + 2 + |digits| <= |s| && s[p - 1] == ' ' && s[p] == 'n' && s[p + 1] == '='
    requires IsNumber(digits) && At(s, digits, p + 2) && (p + 2 + |digits| == |s| || !IsDigit(s[p + 2 + |digits|]))
    requires forall j | 0 <= j <= p :: s[j] != '='
    ensures FirstNodes(s, 0) == Some(Value(digits))
  {
    NodesExact(s, p, digits);
    FirstNodesIs(s, 0, p);
  }

  lemma NodesPlace(s: string, before: string, digits: string, rest: string, p: nat)
    requires s == before + (" n=" + (digits + rest)) && p == |before| + 1
    ensures p + 2 + |digits| <= |s| && s[p - 1] == ' ' && s[p] == 'n' && s[p + 1] == '='
    ensures At(s, digits, p + 2) && s[..p - 1] == before
    ensures if rest == "" then p + 2 + |digits| == |s| else p + 2 + |digits| < |s| && s[p + 2 + |digits|] == rest[0]
  {
    Middle(s, before, " n=", digits + rest);
    assert s == (before + " n=") + (digits + rest);
    Middle(s, before + " n=", digits, rest);
  }

  /** before, a space and n=digits. */
  lemma NodesAreRead(s: string, before: string, digits: string, rest: string)
    requires s == before + (" n=" + (digits + rest)) && IsNumber(digits) && (rest == "" || !IsDigit(rest[0]))
    requires forall i | 0 <= i < |before| :: before[i] != '='
    ensures FirstNodes(s, 0) == Some(Value(digits))
  {
    var p := |before| + 1;
    NodesPlace(s, before, digits, rest, p);
    forall j | 0 <= j <= p ensures s[j] != '=' {
      assert j < p - 1 ==> s[j] == s[..p - 1][j];
    }
    NodesHere(s, p, digits);
  }

  lemma NotEqualsSign(c: Comment, before: string)
    requires WritableComment(c) && before == "{" + c.score + " " + Time(c) + "s,"
    ensures forall i | 0 <= i < |before| :: before[i] != '='
  {
    var a, t := |c.score| + 1, Time(c);
    forall i | 0 <= i < |t| ensures t[i] != '=' {
      if i > |c.whole| {
        assert t[i] == c.decimals[i - |c.whole| - 1];
      }
    }
    forall i | 0 <= i < |before| ensures before[i] != '=' {
      if 1 <= i < a {
        assert before[i] == c.score[i - 1];
      } else if a < i <= a + |t| {
        assert before[i] == t[i - a - 1];
      }
    }
  }

  lemma CommentShapes(c: Comment, digits: string, head: string, before: string)
    requires digits == Decimal(c.nodes) && head == "{" + c.score && before == "{" + c.score + " " + Time(c) + "s,"
    ensures CommentText(c) == head + (" " + (c.whole + ("." + (c.decimals + ("s," + (" n=" + digits + c.tail))))))
    ensures CommentText(c) == before + (" n=" + (digits + c.tail))
  {
  }

  /** A written comment is read back. */
  lemma CommentIsRead(c: Comment)
    requires WritableComment(c)
    ensures NoteOf(CommentText(c)) == Some(Said(c))
  {
    CommentSeconds(c);
    CommentNodes(c);
  }

  lemma CommentSeconds(c: Comment)
    requires WritableComment(c)
    ensures FirstSeconds(CommentText(c), 0) == Some(Seconds(c))
  {
    CommentShapes(c, Decimal(c.nodes), "{" + c.score, "{" + c.score + " " + Time(c) + "s,");
    TimeIsRead(CommentText(c), "{" + c.score, c.whole, c.decimals, " n=" + Decimal(c.nodes) + c.tail);
  }

  lemma CommentNodes(c: Comment)
    requires WritableComment(c)
    ensures FirstNodes(CommentText(c), 0) == Some(c.nodes)
  {
    var before := "{" + c.score + " " + Time(c) + "s,";
    CommentShapes(c, Decimal(c.nodes), "{" + c.score, before);
    NotEqualsSign(c, before);
    NodesAreRead(CommentText(c), before, Decimal(c.nodes), c.tail);
    DecimalValue(c.nodes);
  }

  // ---------------------------------------------------------------------------
  // Reading the moves
  // ---------------------------------------------------------------------------

  function Texts(moves: seq<Move>): seq<string> { seq(|moves|, i requires 0 <= i < |moves| => CommentText(moves[i].comment)) }

  function Notes(moves: seq<Move>): seq<Option<Note>>
    requires WritableMoves(moves)
  {
    seq(|moves|, i requires 0 <= i < |moves| && WritableComment(moves[i].comment) => Some(Said(moves[i].comment)))
  }

  lemma NoBraceInside(c: Comment)
    requires WritableComment(c)
    ensures CommentText(c)[0] == '{' && forall i | 0 <= i < |CommentText(c)| :: CommentText(c)[i] != '}'
  {
    var digits := Decimal(c.nodes);
    var head := "{" + c.score + " " + c.whole + "." + c.decimals;
    assert CommentText(c) == head + ("s, n=" + (digits + c.tail));
    assert forall i | 0 <= i < |digits| :: IsDigit(digits[i]);
  }

  lemma {:induction false} IndexIs(s: string, c: char, from: nat, i: nat)
    requires from <= i < |s| && s[i] == c && forall k | from <= k < i :: s[k] != c
    ensures IndexOf(s, c, from) == Some(i)
    decreases i - from
  {
    if from < i {
      IndexIs(s, c, from + 1, i);
    }
  }

  lemma {:induction false} NoIndex(s: string, c: char, from: nat)
    requires forall k | from <= k < |s| :: s[k] != c
    ensures IndexOf(s, c, from).None?
    decreases |s| - from
  {
    if from < |s| {
      NoIndex(s, c, from + 1);
    }
  }

  lemma Assoc(a: string, b: string, c: string)
    ensures a + (b + c) == (a + b) + c
  {
  }

  lemma CommentPlace(text: string, pre: string, gap: string, comment: string, rest: string, i: nat, j: nat)
    requires text == pre + (gap + (comment + rest)) && rest != "" && rest[0] == '}' && i == |pre| + |gap| && j == i + |comment|
    ensures j < |text| && text[i..j] == comment && text[|pre|..i] == gap && text[j] == '}'
  {
    Middle(text, pre, gap, comment + rest);
    Assoc(pre, gap, comment + rest);
    Middle(text, pre + gap, comment, rest);
  }

  /** One move's comment, found. */
  lemma CommentHere(text: string, pos: nat, i: nat, j: nat, gap: string, comment: string)
    requires pos <= i < j < |text| && text[pos..i] == gap && text[i..j] == comment && text[j] == '}'
    requires NoBraces(gap) && comment[0] == '{' && forall k | 0 <= k < |comment| :: comment[k] != '}'
    ensures IndexOf(text, '{', pos) == Some(i) && IndexOf(text, '}', i) == Some(j)
  {
    forall k | pos <= k < i ensures text[k] != '{' {
      assert text[k] == gap[k - pos];
    }
    forall k | i <= k < j ensures text[k] != '}' {
      assert text[k] == comment[k - i];
    }
    IndexIs(text, '{', pos, i);
    IndexIs(text, '}', i, j);
  }

  lemma FoundHere(text: string, pos: nat, i: nat, j: nat, gap: string, comment: string)
    requires pos <= i < j < |text| && text[pos..i] == gap && text[i..j] == comment && text[j] == '}'
    requires NoBraces(gap) && comment[0] == '{' && forall k | 0 <= k < |comment| :: comment[k] != '}'
    ensures CommentsFrom(text, pos) == [comment] + CommentsFrom(text, j + 1)
  {
    CommentHere(text, pos, i, j, gap, comment);
    OneFound(text, pos, i, j);
  }

  lemma OneFound(text: string, pos: nat, i: nat, j: nat)
    requires IndexOf(text, '{', pos) == Some(i) && IndexOf(text, '}', i) == Some(j)
    ensures CommentsFrom(text, pos) == [text[i..j]] + CommentsFrom(text, j + 1)
  {
  }

  lemma Regroup(text: string, pre: string, gap: string, m: Move, rest: string)
    requires text == pre + (gap + (MoveText(m) + rest))
    ensures text == pre + ((gap + m.san) + (CommentText(m.comment) + ("}" + rest)))
    ensures text == (pre + gap + MoveText(m)) + ("" + rest)
    ensures |pre + gap + MoveText(m)| == |pre| + |gap + m.san| + |CommentText(m.comment)| + 1
  {
    var c := CommentText(m.comment);
    Assoc(m.san, c, "}");
    Assoc(m.san, c + "}", rest);
    Assoc(c, "}", rest);
    Assoc(gap, m.san, c + ("}" + rest));
    Assoc(pre, gap, MoveText(m) + rest);
    Assoc(pre + gap, MoveText(m), rest);
  }

  /** The moves stand in the text from pos on, the first after a gap, and no brace after the last. */
  ghost predicate Laid(text: string, pos: nat, gap: string, moves: seq<Move>)
    decreases |moves|
  {
    pos <= |text| &&
    if moves == [] then NoBraces(text[pos..])
    else
      var comment, space := CommentText(moves[0].comment), gap + moves[0].san;
      var i := pos + |space|;
      var j := i + |comment|;
      && j < |text| && text[pos..i] == space && text[i..j] == comment && text[j] == '}'
      && Laid(text, j + 1, "", moves[1..])
  }

  /** The first move of a text, after pre and a gap. */
  lemma OneLaid(text: string, pre: string, gap: string, m: Move, rest: string, i: nat, j: nat)
    requires text == pre + (gap + (MoveText(m) + rest))
    requires i == |pre| + |gap + m.san| && j == i + |CommentText(m.comment)|
    ensures j < |text| && text[|pre|..i] == gap + m.san && text[i..j] == CommentText(m.comment) && text[j] == '}'
    ensures text == (pre + gap + MoveText(m)) + ("" + rest) && |pre + gap + MoveText(m)| == j + 1
  {
    Regroup(text, pre, gap, m, rest);
    CommentPlace(text, pre, gap + m.san, CommentText(m.comment), "}" + rest, i, j);
  }

  lemma LaidCons(text: string, pos: nat, gap: string, moves: seq<Move>, i: nat, j: nat)
    requires pos <= |text| && moves != [] && i == pos + |gap + moves[0].san| && j == i + |CommentText(moves[0].comment)|
    requires j < |text| && text[pos..i] == gap + moves[0].san && text[i..j] == CommentText(moves[0].comment) && text[j] == '}'
    requires Laid(text, j + 1, "", moves[1..])
    ensures Laid(text, pos, gap, moves)
  {
  }

  lemma {:induction false} PrintedIsLaid(text: string, pre: string, gap: string, moves: seq<Move>, ending: string)
    requires text == pre + (gap + PrintMoves(moves, ending)) && NoBraces(gap) && NoBraces(ending)
    ensures Laid(text, |pre|, gap, moves)
    decreases |moves|
  {
    if moves == [] {
      assert text[|pre|..] == gap + ending;
    } else {
      var i := |pre| + |gap + moves[0].san|;
      var j := i + |CommentText(moves[0].comment)|;
      OneLaid(text, pre, gap, moves[0], PrintMoves(moves[1..], ending), i, j);
      PrintedIsLaid(text, pre + gap + MoveText(moves[0]), "", moves[1..], ending);
      LaidCons(text, |pre|, gap, moves, i, j);
    }
  }

  lemma NextFound(text: string, pos: nat, gap: string, moves: seq<Move>) returns (next: nat)
    requires moves != [] && Laid(text, pos, gap, moves) && NoBraces(gap) && WritableMoves(moves)
    ensures CommentsFrom(text, pos) == [CommentText(moves[0].comment)] + CommentsFrom(text, next)
    ensures Laid(text, next, "", moves[1..])
  {
    var comment, space := CommentText(moves[0].comment), gap + moves[0].san;
    var i := pos + |space|;
    NoBraceInside(moves[0].comment);
    FoundHere(text, pos, i, i + |comment|, space, comment);
    next := i + |comment| + 1;
  }

  lemma {:induction false} LaidIsFound(text: string, pos: nat, gap: string, moves: seq<Move>)
    requires Laid(text, pos, gap, moves) && NoBraces(gap) && WritableMoves(moves)
    ensures CommentsFrom(text, pos) == Texts(moves)
    decreases |moves|
  {
    if moves == [] {
      NoneFound(text, pos);
    } else {
      var next := NextFound(text, pos, gap, moves);
      LaidIsFound(text, next, "", moves[1..]);
      TextsNext(moves);
    }
  }

  lemma NoneFound(text: string, pos: nat)
    requires pos <= |text| && NoBraces(text[pos..])
    ensures CommentsFrom(text, pos) == []
  {
    forall k | pos <= k < |text| ensures text[k] != '{' {
      assert text[k] == text[pos..][k - pos];
    }
    NoIndex(text, '{', pos);
  }

  lemma TextsNext(moves: seq<Move>)
    requires moves != []
    ensures Texts(moves) == [CommentText(moves[0].comment)] + Texts(moves[1..])
  {
  }

  /** The notes of written moves are those of their comments. */
  lemma NotesAreRead(moves: seq<Move>)
    requires WritableMoves(moves)
    ensures NotesOf(Texts(moves)) == Notes(moves)
  {
    forall i | 0 <= i < |moves| ensures NotesOf(Texts(moves))[i] == Notes(moves)[i] {
      CommentIsRead(moves[i].comment);
    }
  }
}
