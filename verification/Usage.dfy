/** client/pgn.cpp, usage_by_color: nodes and time of each side, from the comments of the moves. */
module Usage {
  import opened Schema
  import opened Pgn
  import opened GameText
  import opened TimeControl

  // ---------------------------------------------------------------------------
  // Comments
  // ---------------------------------------------------------------------------

  const BLANK_LINE: string := "\n\n"

  /** std::string::find for one character. */
  function IndexOf(s: string, c: char, from: nat): (i: Option<nat>)
    ensures i.Some? ==> from <= i.value < |s| && s[i.value] == c
    decreases |s| - from
  {
    if from >= |s| then None else if s[from] == c then Some(from) else IndexOf(s, c, from + 1)
  }

  /** The comments from pos on, each without its closing brace. */
  function CommentsFrom(s: string, pos: nat): seq<string>
    decreases |s| - pos
  {
    match IndexOf(s, '{', pos)
    case None => []
    case Some(i) =>
      match IndexOf(s, '}', i)
      case None => []
      case Some(j) => [s[i..j]] + CommentsFrom(s, j + 1)
  }

  // ---------------------------------------------------------------------------
  // One comment
  // ---------------------------------------------------------------------------

  function Slice(s: string, i: nat, j: nat): (digits: string)
    requires i <= j <= |s| && forall k | i <= k < j :: IsDigit(s[k])
    ensures |digits| == j - i && AllOf(digits, IsDigit)
  {
    s[i..j]
  }

  /** The digits of n=digits at k, where a word begins. */
  function NodesAt(s: string, k: nat): Option<nat> {
    if k + 2 < |s| && s[k] == 'n' && s[k + 1] == '=' && IsDigit(s[k + 2]) && (k == 0 || !IsWord(s[k - 1]))
    then Some(Value(Slice(s, k + 2, RunEnd(s, k + 2, IsDigit)))) else None
  }

  /** The first of them from k on. */
  function FirstNodes(s: string, k: nat): Option<nat>
    decreases |s| - k
  {
    if k >= |s| then None
    else match NodesAt(s, k)
      case Some(n) => Some(n)
      case None => FirstNodes(s, k + 1)
  }

  /** The seconds at k: a space, digits with or without decimals, and an s where a word ends. */
  function SecondsAt(s: string, k: nat): Option<Number> {
    if k >= |s| || !IsSpace(s[k]) then None
    else
      var whole := RunEnd(s, k + 1, IsDigit);
      var decimals := whole + 1 < |s| && s[whole] == '.' && IsDigit(s[whole + 1]);
      var end := if decimals then RunEnd(s, whole + 1, IsDigit) else whole;
      if whole == k + 1 || end >= |s| || s[end] != 's' || (end + 1 < |s| && IsWord(s[end + 1])) then None
      else if decimals then
        var digits := Slice(s, k + 1, whole) + Slice(s, whole + 1, end);
        Some(Number(Value(digits), end - whole - 1))
      else Some(Number(Value(Slice(s, k + 1, whole)), 0))
  }

  /** A space, digits up to p, a point, digits, and an s at e - 1 that ends a word. */
  lemma PointTime(s: string, k: nat, p: nat, e: nat)
    requires k + 1 < p && p + 2 < e <= |s| && IsSpace(s[k]) && s[p] == '.' && s[e - 1] == 's' && (e == |s| || !IsWord(s[e]))
    requires (forall i | k + 1 <= i < p :: IsDigit(s[i])) && (forall i | p + 1 <= i < e - 1 :: IsDigit(s[i]))
    ensures SecondsAt(s, k) == Some(Number(Value(Slice(s, k + 1, p) + Slice(s, p + 1, e - 1)), e - p - 2))
  {
    RunIs(s, k + 1, p, IsDigit);
    RunIs(s, p + 1, e - 1, IsDigit);
  }

  function FirstSeconds(s: string, k: nat): Option<Number>
    decreases |s| - k
  {
    if k >= |s| then None
    else match SecondsAt(s, k)
      case Some(x) => Some(x)
      case None => FirstSeconds(s, k + 1)
  }

  /** What a comment tells of a move; None unless it has both nodes and time. */
  datatype Note = Note(nodes: nat, seconds: Number)

  function NoteOf(comment: string): Option<Note> {
    match FirstNodes(comment, 0)
    case None => None
    case Some(n) => match FirstSeconds(comment, 0)
      case None => None
      case Some(x) => Some(Note(n, x))
  }

  // ---------------------------------------------------------------------------
  // Sums
  // ---------------------------------------------------------------------------

  function Power(b: nat, e: nat): nat { if e == 0 then 1 else b * Power(b, e - 1) }

  /** The exponent past the greatest double's, and that of the least normal one. */
  function MaxExponent(): nat { 1024 }
  function Precision(): nat { 54 }
  function MinExponent(): nat { 1022 }

  /** The least integer that rounds to infinity as a double. */
  function Infinite(): int { Power(2, MaxExponent()) - Power(2, MaxExponent() - Precision()) }

  /** std::stod throws. */
  predicate DoubleThrows(x: Number, platform: Platform) {
    || x.digits >= Infinite() * Pow10(x.places)
    || (0 < x.digits && x.digits * Power(2, MinExponent()) < Pow10(x.places) && platform.refusesTiny(x.digits, x.places))
  }

  /** In powers of two: refused are the numbers from 2^1024 - 2^970 up, where rounding to a double reaches infinity,
      and, where the platform refuses it, one below 2^-1022. */
  lemma DoubleRange(x: Number, platform: Platform, top: nat, step: nat, bottom: nat)
    requires top == 1024 && step == 970 && bottom == 1022
    ensures var ones := Pow10(x.places);
            DoubleThrows(x, platform) <==>
              || x.digits >= (Power(2, top) - Power(2, step)) * ones
              || (x.digits != 0 && x.digits * Power(2, bottom) < ones && platform.refusesTiny(x.digits, x.places))
  {
  }

  predicate NoteThrows(note: Note, platform: Platform) {
    note.nodes > INT64_MAX || DoubleThrows(note.seconds, platform)
  }

  datatype EngineUsage = EngineUsage(nodes: Long, timeMs: Long)

  /** The sums of the two sides so far; None for a side without a note. */
  datatype ColorUsage = ColorUsage(white: Option<EngineUsage>, black: Option<EngineUsage>)

  function Add(u: Option<EngineUsage>, note: Note, platform: Platform): EngineUsage {
    var before := if u.Some? then u.value else EngineUsage(0, 0);
    EngineUsage(ToLong(before.nodes + note.nodes, platform),
                ToLong(before.timeMs + ToLong(Rounded(note.seconds), platform), platform))
  }

  function AddTo(usage: ColorUsage, whiteToMove: bool, note: Note, platform: Platform): ColorUsage {
    if whiteToMove then usage.(white := Some(Add(usage.white, note, platform)))
    else usage.(black := Some(Add(usage.black, note, platform)))
  }

  /** One comment a move; None where a number makes the conversion throw. */
  function SumUp(notes: seq<Option<Note>>, whiteToMove: bool, usage: ColorUsage, platform: Platform): Option<ColorUsage> {
    if notes == [] then Some(usage)
    else if notes[0].None? then SumUp(notes[1..], !whiteToMove, usage, platform)
    else if NoteThrows(notes[0].value, platform) then None
    else SumUp(notes[1..], !whiteToMove, AddTo(usage, whiteToMove, notes[0].value, platform), platform)
  }

  function NotesOf(comments: seq<string>): seq<Option<Note>> { seq(|comments|, i requires 0 <= i < |comments| => NoteOf(comments[i])) }

  const NOTHING := ColorUsage(None, None)

  function UsageByColor(game: string, whiteFirst: bool, platform: Platform): Option<ColorUsage> {
    match Find(game, BLANK_LINE, 0)
    case None => Some(NOTHING)
    case Some(start) => SumUp(NotesOf(CommentsFrom(game, start)), whiteFirst, NOTHING, platform)
  }

  /** It throws exactly if some note holds a number too big or, on some platforms, too small. */
  lemma {:induction false} SumThrows(notes: seq<Option<Note>>, whiteToMove: bool, usage: ColorUsage, platform: Platform)
    ensures SumUp(notes, whiteToMove, usage, platform).None?
       <==> exists i :: 0 <= i < |notes| && notes[i].Some? && NoteThrows(notes[i].value, platform)
    decreases |notes|
  {
    if notes != [] {
      if notes[0].None? {
        SumThrows(notes[1..], !whiteToMove, usage, platform);
        SomeLater(notes, platform);
      } else if !NoteThrows(notes[0].value, platform) {
        SumThrows(notes[1..], !whiteToMove, AddTo(usage, whiteToMove, notes[0].value, platform), platform);
        SomeLater(notes, platform);
      }
    }
  }

  lemma SomeLater(notes: seq<Option<Note>>, platform: Platform)
    requires notes != [] && (notes[0].None? || !NoteThrows(notes[0].value, platform))
    ensures (exists i :: 0 <= i < |notes| && notes[i].Some? && NoteThrows(notes[i].value, platform))
       <==> (exists i :: 0 <= i < |notes[1..]| && notes[1..][i].Some? && NoteThrows(notes[1..][i].value, platform))
  {
    if i :| 0 <= i < |notes| && notes[i].Some? && NoteThrows(notes[i].value, platform) {
      assert notes[1..][i - 1] == notes[i];
    }
    if i :| 0 <= i < |notes[1..]| && notes[1..][i].Some? && NoteThrows(notes[1..][i].value, platform) {
      assert notes[i + 1] == notes[1..][i];
    }
  }

  /** The notes of one side: of the one that moves first, if it is mine. */
  function SideNotes(notes: seq<Option<Note>>, mine: bool): seq<Note> {
    if notes == [] then []
    else (if mine && notes[0].Some? then [notes[0].value] else []) + SideNotes(notes[1..], !mine)
  }

  function NodesIn(notes: seq<Note>): nat { if notes == [] then 0 else notes[0].nodes + NodesIn(notes[1..]) }

  function TimeIn(notes: seq<Note>): nat { if notes == [] then 0 else Rounded(notes[0].seconds) + TimeIn(notes[1..]) }

  /** after is before with these notes on top; a side has nothing until it has a note. */
  ghost predicate SumsTo(before: Option<EngineUsage>, notes: seq<Note>, after: Option<EngineUsage>) {
    if notes == [] then after == before
    else
      && after.Some?
      && after.value.nodes == NodesSoFar(before) + NodesIn(notes) && after.value.timeMs == TimeSoFar(before) + TimeIn(notes)
  }

  function NodesSoFar(u: Option<EngineUsage>): int { if u.Some? then u.value.nodes else 0 }
  function TimeSoFar(u: Option<EngineUsage>): int { if u.Some? then u.value.timeMs else 0 }

  /** The sums stay within a long long. */
  predicate Fits(before: Option<EngineUsage>, notes: seq<Note>) {
    && NodesSoFar(before) >= 0 && TimeSoFar(before) >= 0
    && NodesSoFar(before) + NodesIn(notes) <= 9_223_372_036_854_775_807 && TimeSoFar(before) + TimeIn(notes) <= 9_223_372_036_854_775_807
  }

  lemma OneNoteMore(before: Option<EngineUsage>, note: Note, rest: seq<Note>, platform: Platform)
    requires Fits(before, [note] + rest)
    ensures var next := Some(Add(before, note, platform));
            Fits(next, rest) && forall after :: SumsTo(next, rest, after) ==> SumsTo(before, [note] + rest, after)
  {
    assert ([note] + rest)[1..] == rest;
  }

  lemma SideNotesNext(notes: seq<Option<Note>>)
    requires notes != []
    ensures SideNotes(notes, false) == SideNotes(notes[1..], true)
    ensures SideNotes(notes, true) == if notes[0].None? then SideNotes(notes[1..], false) else [notes[0].value] + SideNotes(notes[1..], false)
  {
  }

  /** Every comment belongs to the side whose move it follows, sides taking turns, and as long as the sums fit a long long
      each side's nodes and milliseconds are those of its own comments added up. */
  lemma {:induction false} SumsAreTotals(notes: seq<Option<Note>>, whiteToMove: bool, usage: ColorUsage, platform: Platform)
    requires SumUp(notes, whiteToMove, usage, platform).Some?
    requires Fits(usage.white, SideNotes(notes, whiteToMove)) && Fits(usage.black, SideNotes(notes, !whiteToMove))
    ensures var after := SumUp(notes, whiteToMove, usage, platform).value;
            && SumsTo(usage.white, SideNotes(notes, whiteToMove), after.white)
            && SumsTo(usage.black, SideNotes(notes, !whiteToMove), after.black)
    decreases |notes|
  {
    if notes != [] {
      SideNotesNext(notes);
      if notes[0].None? {
        SumsAreTotals(notes[1..], !whiteToMove, usage, platform);
      } else {
        var note, rest := notes[0].value, notes[1..];
        OneNoteMore(if whiteToMove then usage.white else usage.black, note, SideNotes(rest, false), platform);
        SumsAreTotals(rest, !whiteToMove, AddTo(usage, whiteToMove, note, platform), platform);
      }
    }
  }

  // ---------------------------------------------------------------------------
  // The loop
  // ---------------------------------------------------------------------------

  lemma NotesNext(comment: string, comments: seq<string>, all: seq<string>)
    requires all == [comment] + comments
    ensures NotesOf(all) != [] && NotesOf(all)[0] == NoteOf(comment) && NotesOf(all)[1..] == NotesOf(comments)
  {
  }

  /** The sums over the comments from pos on, added to those so far. */
  function SumFrom(game: string, pos: nat, whiteToMove: bool, sides: ColorUsage, platform: Platform): Option<ColorUsage> {
    SumUp(NotesOf(CommentsFrom(game, pos)), whiteToMove, sides, platform)
  }

  lemma SumNext(game: string, pos: nat, open: nat, close: nat, whiteToMove: bool, sides: ColorUsage, platform: Platform)
    requires IndexOf(game, '{', pos) == Some(open) && IndexOf(game, '}', open) == Some(close)
    ensures SumFrom(game, pos, whiteToMove, sides, platform) ==
              match NoteOf(game[open..close])
              case None => SumFrom(game, close + 1, !whiteToMove, sides, platform)
              case Some(note) => if NoteThrows(note, platform) then None
                                 else SumFrom(game, close + 1, !whiteToMove, AddTo(sides, whiteToMove, note, platform), platform)
  {
    NotesNext(game[open..close], CommentsFrom(game, close + 1), CommentsFrom(game, pos));
  }

  /** usage_by_color; None where a conversion throws. */
  method ReadUsage(game: string, whiteFirst: bool, platform: Platform) returns (usage: Option<ColorUsage>)
    ensures usage == UsageByColor(game, whiteFirst, platform)
  {
    var start := Find(game, BLANK_LINE, 0);
    if start.None? {
      return Some(NOTHING);
    }
    usage := AddUpFrom(game, start.value, whiteFirst, platform);
  }

  /** The loop over the comments. */
  method AddUpFrom(game: string, start: nat, whiteFirst: bool, platform: Platform) returns (usage: Option<ColorUsage>)
    ensures usage == SumFrom(game, start, whiteFirst, NOTHING, platform)
  {
    var sides, whiteToMove, pos := NOTHING, whiteFirst, start;
    while true
      invariant SumFrom(game, pos, whiteToMove, sides, platform) == SumFrom(game, start, whiteFirst, NOTHING, platform)
      decreases |game| - pos
    {
      var open := IndexOf(game, '{', pos);
      if open.None? {
        return Some(sides);
      }
      var close := IndexOf(game, '}', open.value);
      if close.None? {
        return Some(sides);
      }
      SumNext(game, pos, open.value, close.value, whiteToMove, sides, platform);
      var note := NoteOf(game[open.value..close.value]);
      pos := close.value + 1;
      var mover := whiteToMove;
      whiteToMove := !whiteToMove;
      if note.None? {
        continue;
      }
      if NoteThrows(note.value, platform) {
        return None;
      }
      sides := AddTo(sides, mover, note.value, platform);
    }
  }
}
