/** The incremental line splitter that logs the backend's output streams. */
module LineBuffering {
  import opened Sequences
  import opened Text

  /** What can happen to one stream: a chunk arrives, or the exit handler flushes. */
  datatype Event = Data(chunk: string) | Flush

  /** The residual buffer and every line handed to the callback so far. */
  datatype State = State(buffer: string, emitted: seq<string>)

  function NonEmpty(pieces: seq<string>): seq<string> {
    if pieces == [] then []
    else (if pieces[0] == "" then [] else [pieces[0]]) + NonEmpty(pieces[1..])
  }

  function Step(s: State, e: Event): State {
    match e
    case Data(chunk) =>
      var pieces := SplitOn(s.buffer + chunk, '\n');
      State(Last(pieces), s.emitted + NonEmpty(Init(pieces)))
    case Flush =>
      if s.buffer == "" then s else State("", s.emitted + [s.buffer])
  }

  function Run(events: seq<Event>): State {
    if events == [] then State("", []) else Step(Run(Init(events)), Last(events))
  }

  /** The whole input, with one newline standing for each flush. */
  function Feed(events: seq<Event>): string {
    if events == [] then ""
    else Feed(Init(events)) + match Last(events) case Data(chunk) => chunk case Flush => "\n"
  }

  /** The stream handler: a closure over `buffer`, here with the calls of `onLine` recorded. */
  class LineBuffer {
    var buffer: string
    var emitted: seq<string>

    ghost function View(): State
      reads this
    {
      State(buffer, emitted)
    }

    constructor ()
      ensures View() == Run([])
    {
      buffer, emitted := "", [];
    }

    method OnLine(line: string)
      modifies this`emitted
      ensures emitted == old(emitted) + [line]
    {
      emitted := emitted + [line];
    }

    method OnData(data: string)
      modifies this
      ensures View() == Step(old(View()), Data(data))
    {
      buffer := buffer + data;
      var lines := SplitOn(buffer, '\n');
      buffer, lines := Last(lines), Init(lines);
      assert lines[0..] == lines;
      for i := 0 to |lines|
        invariant emitted + NonEmpty(lines[i..]) == old(emitted) + NonEmpty(lines)
        invariant buffer == Last(SplitOn(old(buffer) + data, '\n'))
      {
        assert lines[i..][1..] == lines[i + 1..];
        assert emitted + ([lines[i]] + NonEmpty(lines[i + 1..])) == emitted + [lines[i]] + NonEmpty(lines[i + 1..]);
        if |lines[i]| > 0 {
          OnLine(lines[i]);
        }
      }
    }

    method FlushBuffer()
      modifies this
      ensures View() == Step(old(View()), Flush)
    {
      if |buffer| > 0 {
        OnLine(buffer);
        buffer := "";
      }
    }
  }

  lemma {:induction false} NonEmptyConcat(a: seq<string>, b: seq<string>)
    ensures NonEmpty(a + b) == NonEmpty(a) + NonEmpty(b)
  {
    if a == [] {
      assert a + b == b;
    } else {
      assert (a + b)[1..] == a[1..] + b;
      NonEmptyConcat(a[1..], b);
    }
  }

  /** What a handler that has seen the text `seen` must hold. */
  function Expected(seen: string): State {
    var pieces := SplitOn(seen, '\n');
    State(Last(pieces), NonEmpty(Init(pieces)))
  }

  lemma DataKeepsExpected(seen: string, chunk: string)
    ensures Step(Expected(seen), Data(chunk)) == Expected(seen + chunk)
  {
    var pieces := SplitOn(seen, '\n');
    var tail := SplitOn(Last(pieces) + chunk, '\n');
    SplitConcat(seen, chunk, '\n');
    assert Init(Init(pieces) + tail) == Init(pieces) + Init(tail);
    NonEmptyConcat(Init(pieces), Init(tail));
  }

  lemma FlushKeepsExpected(seen: string)
    ensures Step(Expected(seen), Flush) == Expected(seen + "\n")
  {
    var residual := Last(SplitOn(seen, '\n'));
    DataKeepsExpected(seen, "\n");
    SplitJoins(seen, '\n');
    JoinSplits([residual, ""], '\n');
    assert JoinWith([residual, ""], '\n') == residual + "\n";
    assert NonEmpty([residual]) == if residual == "" then [] else [residual];
    assert Init([residual, ""]) == [residual];
  }

  /** The streaming splitter agrees with splitting the whole input at once: the lines emitted are
      the non-empty finished pieces, and the residual buffer is the unfinished last piece. */
  lemma {:induction false} RunIsSplit(events: seq<Event>)
    ensures var pieces := SplitOn(Feed(events), '\n');
            Run(events) == State(Last(pieces), NonEmpty(Init(pieces)))
  {
    if events != [] {
      RunIsSplit(Init(events));
      match Last(events)
      case Data(chunk) => DataKeepsExpected(Feed(Init(events)), chunk);
      case Flush => FlushKeepsExpected(Feed(Init(events)));
    }
  }

  /** Chunk boundaries are invisible: runs fed the same text are in the same state. */
  lemma ChunkingIrrelevant(left: seq<Event>, right: seq<Event>)
    requires Feed(left) == Feed(right)
    ensures Run(left) == Run(right)
  {
    RunIsSplit(left);
    RunIsSplit(right);
  }

  /** After a closing flush, the lines are exactly the non-empty pieces of the whole input. */
  lemma FlushedOutput(events: seq<Event>)
    ensures Run(events + [Flush]) == State("", NonEmpty(SplitOn(Feed(events), '\n')))
  {
    var pieces := SplitOn(Feed(events), '\n');
    RunIsSplit(events);
    assert Init(events + [Flush]) == events;
    assert Run(events + [Flush]) == Step(Run(events), Flush);
    NonEmptyConcat(Init(pieces), [Last(pieces)]);
    assert Init(pieces) + [Last(pieces)] == pieces;
    assert NonEmpty([Last(pieces)]) == if Last(pieces) == "" then [] else [Last(pieces)];
  }

  function Concat(pieces: seq<string>): string {
    if pieces == [] then "" else pieces[0] + Concat(pieces[1..])
  }

  function WithoutNewlines(s: string): string {
    if s == "" then "" else (if s[0] == '\n' then "" else [s[0]]) + WithoutNewlines(s[1..])
  }

  lemma {:induction false} NonEmptyKeepsText(pieces: seq<string>)
    ensures Concat(NonEmpty(pieces)) == Concat(pieces)
  {
    if pieces != [] {
      NonEmptyKeepsText(pieces[1..]);
      assert NonEmpty(pieces) == if pieces[0] == "" then NonEmpty(pieces[1..]) else [pieces[0]] + NonEmpty(pieces[1..]);
    }
  }

  lemma {:induction false} ConcatInit(pieces: seq<string>)
    requires pieces != []
    ensures Concat(pieces) == Concat(Init(pieces)) + Last(pieces)
  {
    if |pieces| > 1 {
      ConcatInit(pieces[1..]);
      assert Init(pieces)[1..] == Init(pieces[1..]);
    }
  }

  lemma {:induction false} PiecesKeepText(s: string)
    ensures Concat(SplitOn(s, '\n')) == WithoutNewlines(s)
  {
    if s != "" {
      PiecesKeepText(s[1..]);
      var rest := SplitOn(s[1..], '\n');
      assert s[0] == '\n' ==> SplitOn(s, '\n')[1..] == rest;
      assert s[0] != '\n' ==> SplitOn(s, '\n')[1..] == rest[1..];
    }
  }

  /** No character but the newlines is ever lost, duplicated or reordered. */
  lemma TextConserved(events: seq<Event>)
    ensures Concat(Run(events).emitted) + Run(events).buffer == WithoutNewlines(Feed(events))
  {
    var pieces := SplitOn(Feed(events), '\n');
    RunIsSplit(events);
    NonEmptyKeepsText(Init(pieces));
    ConcatInit(pieces);
    PiecesKeepText(Feed(events));
  }

  lemma {:induction false} JoinEndsWithLast(pieces: seq<string>, sep: char) returns (head: string)
    requires pieces != []
    ensures JoinWith(pieces, sep) == head + Last(pieces)
    ensures |pieces| > 1 ==> head != "" && Last(head) == sep
    ensures |pieces| == 1 ==> head == ""
  {
    if |pieces| == 1 {
      head := "";
    } else {
      var rest := JoinEndsWithLast(pieces[1..], sep);
      head := pieces[0] + [sep] + rest;
    }
  }

  /** In every reachable state the residual is the newline-free tail of the input that follows its
      last newline, and no emitted line is empty or holds a newline. */
  lemma ResidualIsTail(events: seq<Event>) returns (head: string)
    ensures Feed(events) == head + Run(events).buffer
    ensures head == "" || Last(head) == '\n'
    ensures '\n' !in Run(events).buffer
    ensures forall line | line in Run(events).emitted :: line != "" && '\n' !in line
  {
    var pieces := SplitOn(Feed(events), '\n');
    RunIsSplit(events);
    SplitJoins(Feed(events), '\n');
    head := JoinEndsWithLast(pieces, '\n');
    NonEmptyMembers(Init(pieces));
  }

  lemma {:induction false} NonEmptyMembers(pieces: seq<string>)
    ensures forall line | line in NonEmpty(pieces) :: line != "" && line in pieces
  {
    if pieces != [] {
      NonEmptyMembers(pieces[1..]);
    }
  }
}
