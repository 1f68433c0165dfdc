/** common/process.cpp: the loop of run_process that feeds a child's stdin and keeps the end of its
    output, and tail_lines. What the operating system answers is a list of events, one a pass. */
module ProcessOutput {
  import opened Schema


  type Bytes = seq<char>

  /** What a pass does about stdin: nothing was ready, the pipe took some bytes, it was full or the
      call was interrupted, it failed or the child closed its end. */
  datatype Input = Unready | Took(n: nat) | Busy | Broken

  /** What a pass gets from the output pipe. */
  datatype Output = Silent | Data(chunk: Bytes) | Again | End

  /** One pass of the loop: it ends by cancellation, by the deadline or by a failing poll, is
      interrupted, or serves both pipes. */
  datatype Event = Cancel | Deadline | PollFails | Interrupted | Serve(input: Input, output: Output)

  const BUFFER: nat := 8192

  ghost predicate Plausible(events: seq<Event>) {
    forall i | 0 <= i < |events| && events[i].Serve? && events[i].output.Data? :: 0 < |events[i].output.chunk| <= 8192
  }

  predicate Ends(e: Event) { e.Cancel? || e.Deadline? || e.PollFails? || (e.Serve? && e.output.End?) }

  /** All the child wrote that the loop read before it ended. */
  function AllRead(events: seq<Event>): Bytes {
    if events == [] then []
    else
      var before := AllRead(events[..|events| - 1]);
      var e := events[|events| - 1];
      if Stopped(events[..|events| - 1]) then before
      else if e.Serve? && e.output.Data? then before + e.output.chunk
      else before
  }

  predicate Stopped(events: seq<Event>) { exists i | 0 <= i < |events| :: Ends(events[i]) }

  /** The event that ended the loop. */
  function EndedBy(events: seq<Event>): Option<Event> {
    if events == [] then None
    else
      var before, e := EndedBy(events[..|events| - 1]), events[|events| - 1];
      if before.Some? then before else if Ends(e) then Some(e) else None
  }

  /** It is the first that ends it. */
  lemma {:induction false} EndedByFirst(events: seq<Event>, i: nat)
    requires i < |events| && Ends(events[i]) && forall k | 0 <= k < i :: !Ends(events[k])
    ensures EndedBy(events) == Some(events[i])
    decreases |events|
  {
    if i < |events| - 1 {
      EndedByFirst(events[..|events| - 1], i);
    } else {
      NotEnded(events[..i]);
    }
  }

  lemma {:induction false} NotEnded(events: seq<Event>)
    requires forall k | 0 <= k < |events| :: !Ends(events[k])
    ensures EndedBy(events).None?
    decreases |events|
  {
    if events != [] {
      NotEnded(events[..|events| - 1]);
    }
  }

  function Tail(s: Bytes, n: nat): Bytes { if |s| <= n then s else s[|s| - n..] }

  /** kept is an end of all, and what is missing was more than max bytes back. */
  ghost predicate Enough(all: Bytes, kept: Bytes, max: nat) {
    && |kept| <= |all| && all[|all| - |kept|..] == kept
    && (kept == all || |kept| >= max)
  }

  lemma EnoughGives(all: Bytes, kept: Bytes, max: nat)
    requires Enough(all, kept, max)
    ensures Tail(kept, max) == Tail(all, max)
  {
    if |kept| > max {
      assert kept[|kept| - max..] == all[|all| - max..];
    } else if kept != all {
      assert |kept| == max;
    }
  }

  lemma SuffixGrows(all: Bytes, kept: Bytes, chunk: Bytes)
    requires |kept| <= |all| && all[|all| - |kept|..] == kept
    ensures (all + chunk)[|all| - |kept|..] == kept + chunk
  {
  }

  lemma EnoughGrows(all: Bytes, kept: Bytes, max: nat, chunk: Bytes)
    requires Enough(all, kept, max)
    ensures Enough(all + chunk, kept + chunk, max)
  {
    SuffixGrows(all, kept, chunk);
    assert |all + chunk| - |kept + chunk| == |all| - |kept|;
  }

  lemma EnoughTrimmed(all: Bytes, kept: Bytes, max: nat)
    requires Enough(all, kept, max)
    ensures Enough(all, Tail(kept, max), max)
  {
    if |kept| > max {
      assert all[|all| - |kept|..][|kept| - max..] == all[|all| - max..];
    }
  }

  lemma StoppedStep(events: seq<Event>, i: nat)
    requires i < |events|
    ensures Stopped(events[..i + 1]) <==> Stopped(events[..i]) || Ends(events[i])
  {
    if Stopped(events[..i + 1]) {
      var k :| 0 <= k < i + 1 && Ends(events[..i + 1][k]);
      assert k < i ==> Ends(events[..i][k]);
    }
    if Stopped(events[..i]) {
      var k :| 0 <= k < i && Ends(events[..i][k]);
      assert Ends(events[..i + 1][k]);
    }
    if Ends(events[i]) {
      assert Ends(events[..i + 1][i]);
    }
  }

  /** The output buffer. */
  class Buffer {
    const max: nat
    var output: Bytes
    /** All the bytes received so far, and the most ever held at once. */
    ghost var all: Bytes
    ghost var peak: nat

    ghost predicate Valid()
      reads this
    {
      && Enough(all, output, max) && |output| <= 2 * max
      && peak <= 2 * max + BUFFER
    }

    constructor (max: nat)
      ensures Valid() && this.max == max && all == []
    {
      this.max, output, all, peak := max, [], [], 0;
    }

    /** Appending a chunk, and erasing from the front when twice the limit is exceeded. */
    method Append(chunk: Bytes)
      requires Valid() && |chunk| <= BUFFER
      modifies this
      ensures Valid() && all == old(all) + chunk
    {
      var grown := output + chunk;
      EnoughGrows(all, output, max, chunk);
      EnoughTrimmed(all + chunk, grown, max);
      output, all := grown, all + chunk;
      peak := if |grown| > peak then |grown| else peak;
      if |output| > 2 * max {
        output := output[|output| - max..];
      }
    }

    /** The final trim. */
    method Finish() returns (result: Bytes)
      requires Valid()
      modifies `output
      ensures result == Tail(all, max)
    {
      EnoughGives(all, output, max);
      if |output| > max {
        output := output[|output| - max..];
      }
      result := output;
    }
  }

  /** The pipe to the child's stdin; sent is what it took. */
  class Feed {
    const data: Bytes
    var written: nat
    var open: bool
    ghost var sent: Bytes

    ghost predicate Valid()
      reads this
    {
      sent <= data && written <= |data| && (open ==> written < |data| && sent == data[..written])
    }

    constructor (data: Bytes)
      ensures Valid() && this.data == data && sent == []
    {
      this.data, written, open, sent := data, 0, data != [], [];
    }

    /** One pass: the cursor moves on by what the pipe took, and jumps to the end when it breaks. */
    method Serve(input: Input)
      requires Valid()
      modifies this
      ensures Valid() && old(sent) <= sent
    {
      if open {
        var left := |data| - written;
        var took := if !input.Took? then 0 else if input.n <= left then input.n else left;
        sent := data[..written + took];
        written := if input.Broken? then |data| else written + took;
        open := written < |data|;
      }
    }
  }

  /** The poll loop. Returns the kept output, how it ended, what stdin took, and the most output ever
      held. */
  method Pump(events: seq<Event>, stdin: Bytes, max: nat)
    returns (output: Bytes, cancelled: bool, timedOut: bool, ghost sent: Bytes, ghost peak: nat)
    requires Plausible(events)
    ensures output == Tail(AllRead(events), max)
    ensures peak <= 2 * max + 8192
    ensures sent <= stdin
    ensures cancelled <==> EndedBy(events) == Some(Cancel)
    ensures timedOut <==> EndedBy(events) == Some(Deadline)
  {
    var buffer := new Buffer(max);
    var feed := new Feed(stdin);
    cancelled, timedOut := false, false;
    var running := true;
    var i: nat := 0;
    while i < |events| && running
      invariant i <= |events| && buffer.Valid() && feed.Valid() && fresh(buffer) && fresh(feed)
      invariant buffer.all == AllRead(events[..i]) && (running <==> !Stopped(events[..i]))
      invariant running <==> EndedBy(events[..i]).None?
      invariant (cancelled <==> EndedBy(events[..i]) == Some(Cancel)) && (timedOut <==> EndedBy(events[..i]) == Some(Deadline))
      decreases |events| - i
    {
      var e := events[i];
      StoppedStep(events, i);
      assert events[..i + 1][..i] == events[..i];
      if e.Cancel? {
        cancelled, running := true, false;
      } else if e.Deadline? {
        timedOut, running := true, false;
      } else if e.PollFails? {
        running := false;
      } else if e.Serve? {
        feed.Serve(e.input);
        if e.output.Data? {
          buffer.Append(e.output.chunk);
        } else if e.output.End? {
          running := false;
        }
      }
      i := i + 1;
    }
    ReadNoMore(events, i);
    peak, sent := buffer.peak, feed.sent;
    output := buffer.Finish();
  }

  /** Nothing is read after the loop has ended. */
  lemma {:induction false} ReadNoMore(events: seq<Event>, i: nat)
    requires i <= |events| && (i == |events| || Stopped(events[..i]))
    ensures AllRead(events) == AllRead(events[..i])
    ensures Stopped(events) <==> Stopped(events[..i])
    ensures (i == |events| || EndedBy(events[..i]).Some?) ==> EndedBy(events) == EndedBy(events[..i])
    decreases |events|
  {
    if i == |events| {
      assert events[..i] == events;
    } else {
      var shorter := events[..|events| - 1];
      assert shorter[..i] == events[..i];
      ReadNoMore(shorter, i);
      StoppedStep(events, |events| - 1);
      assert events[..|events|] == events;
    }
  }

  // ---------------------------------------------------------------------------
  // tail_lines
  // ---------------------------------------------------------------------------

  function Newlines(s: Bytes): nat {
    if s == [] then 0 else (if s[0] == '\n' then 1 else 0) + Newlines(s[1..])
  }

  /** The end of the text, without its trailing newlines. */
  function TextEnd(text: Bytes): (end: nat)
    ensures end <= |text| && (end > 0 ==> text[end - 1] != '\n')
  {
    if text != [] && text[|text| - 1] == '\n' then TextEnd(text[..|text| - 1]) else |text|
  }

  lemma OneLineMore(text: Bytes, pos: nat, end: nat)
    requires 0 < pos <= end <= |text|
    ensures Newlines(text[pos - 1..end]) == Newlines(text[pos..end]) + if text[pos - 1] == '\n' then 1 else 0
  {
    assert text[pos - 1..end][1..] == text[pos..end];
  }

  /** tail_lines: whole lines from the end, as many as allowed; all of the text if it has no more, or
      if no number is given. */
  method TailLines(text: Bytes, maxLines: nat) returns (tail: Bytes, ghost pos: nat)
    ensures pos <= TextEnd(text) && tail == text[pos..TextEnd(text)]
    ensures pos == 0 ==> maxLines == 0 || Newlines(tail) < maxLines
    ensures pos > 0 ==> text[pos - 1] == '\n' && Newlines(tail) == maxLines - 1
  {
    var end: nat := |text|;
    assert text[..end] == text;
    while end > 0 && text[end - 1] == '\n'
      invariant end <= |text| && TextEnd(text[..end]) == TextEnd(text)
    {
      assert text[..end][..end - 1] == text[..end - 1];
      end := end - 1;
    }
    var at: nat, lines: nat := end, 0;
    while at > 0
      invariant at <= end && lines == Newlines(text[at..end])
      invariant maxLines == 0 || lines < maxLines
    {
      OneLineMore(text, at, end);
      if text[at - 1] == '\n' {
        if lines + 1 == maxLines {
          break;
        }
        lines := lines + 1;
      }
      at := at - 1;
    }
    tail, pos := text[at..end], at;
  }
}
