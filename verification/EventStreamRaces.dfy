/** Concrete failing runs of the event stream, and what the steps of one fan-out come to. */
module EventStreamRaces {
  import opened Options
  import opened Text
  import opened Json
  import opened EventJournal
  import opened EventStream
  import opened EventStreamCare
  import opened EventStreamLimits

  // ------------------------------------------------------------ the opening races

  /** The event was journaled before the replay was read and is not fanned out yet. */
  function ReplayedEarly(e: Event): State { State([e], [e], 1, [e], None, Replayed(0, [e], 1), Client([], false)) }

  /** The event was journaled and fanned out after the replay was read. */
  function FannedOutEarly(e: Event): State { State([e], [e], 1, [], None, Replayed(0, [], 0), Client([], false)) }

  lemma FirstAppend(cfg: Config, session: Session, nowMs: int, methodName: string, body: Json)
    requires ValidConfig(cfg)
    ensures var e := Event(1, nowMs, methodName, body);
            Apply(cfg, INITIAL.(session := session), Append(nowMs, methodName, body))
            == State([e], [e], 1, [e], None, session, Client([], false))
  {
  }

  lemma ReplayCanBeEarly(cfg: Config, e: Event) returns (trace: seq<Step>)
    requires ValidConfig(cfg) && e.eventSeq == 1
    ensures Run(cfg, INITIAL, trace) == Some(ReplayedEarly(e))
  {
    var append := Append(e.occurredAtMs, e.methodName, e.body);
    FirstAppend(cfg, Closed, e.occurredAtMs, e.methodName, e.body);
    var s := State([e], [e], 1, [e], None, Closed, Client([], false));
    AfterZero([e]);
    assert Apply(cfg, Apply(cfg, s, ParseCursor), Replay) == ReplayedEarly(e);
    RunTwo(cfg, s, ParseCursor, Replay);
    RunOne(cfg, INITIAL, append, [ParseCursor, Replay]);
    trace := [append] + [ParseCursor, Replay];
  }

  lemma FanOutCanBeEarly(cfg: Config, e: Event) returns (trace: seq<Step>)
    requires ValidConfig(cfg) && e.eventSeq == 1
    ensures Run(cfg, INITIAL, trace) == Some(FannedOutEarly(e))
  {
    var append := Append(e.occurredAtMs, e.methodName, e.body);
    var t := INITIAL.(session := Replayed(0, [], 0));
    assert Apply(cfg, Apply(cfg, INITIAL, ParseCursor), Replay) == t;
    RunTwo(cfg, INITIAL, ParseCursor, Replay);
    FirstAppend(cfg, t.session, e.occurredAtMs, e.methodName, e.body);
    assert Without([e], 0) == [];
    RunTwo(cfg, t, append, FanOut(0));
    RunJoins(cfg, INITIAL, [ParseCursor, Replay], [append, FanOut(0)]);
    trace := [ParseCursor, Replay] + [append, FanOut(0)];
  }

  /** In the first race the event is sent twice: replay and live events do not even have increasing
      numbers. */
  lemma EventDeliveredTwice(cfg: Config, e: Event)
    requires ValidConfig(cfg) && e.eventSeq == 1
    ensures Enabled(ReplayedEarly(e), Subscribe) && !Careful(cfg, ReplayedEarly(e), Subscribe)
    ensures var r := Run(cfg, Apply(cfg, ReplayedEarly(e), Subscribe), [FanOut(0), Deliver] + [BeginRead, Deliver]);
            r.Some? && r.value.session == Streaming(0, [e, e], [], [], false)
  {
    var s := Apply(cfg, ReplayedEarly(e), Subscribe);
    var t := Apply(cfg, Apply(cfg, s, FanOut(0)), Deliver);
    RunTwo(cfg, s, FanOut(0), Deliver);
    RunTwo(cfg, t, BeginRead, Deliver);
    RunJoins(cfg, s, [FanOut(0), Deliver], [BeginRead, Deliver]);
  }

  /** In the second race a new client never gets the event and nothing tells it: the first event it
      applies is the one after, and no gap is flagged. */
  lemma EventNeverDelivered(cfg: Config, e: Event, next: Event)
    requires ValidConfig(cfg) && e.eventSeq == 1 && next.eventSeq == 2 && Visible(cfg, next)
    ensures Enabled(FannedOutEarly(e), Subscribe) && !Careful(cfg, FannedOutEarly(e), Subscribe)
    ensures var append := Append(next.occurredAtMs, next.methodName, next.body);
            var r := Run(cfg, Apply(cfg, FannedOutEarly(e), Subscribe), [append, FanOut(0)] + [BeginRead, Deliver]);
            r.Some? && r.value.history == [e, next] && r.value.client == Client([next], false)
  {
    var append := Append(next.occurredAtMs, next.methodName, next.body);
    var s := Apply(cfg, FannedOutEarly(e), Subscribe);
    assert FannedOutEarly(e).history[0..] == [e];
    var t := Apply(cfg, Apply(cfg, s, append), FanOut(0));
    RunTwo(cfg, s, append, FanOut(0));
    RunTwo(cfg, t, BeginRead, Deliver);
    RunJoins(cfg, s, [append, FanOut(0)], [BeginRead, Deliver]);
  }

  /** The connection a client opens at its last event, before anything is handled. */
  function Opened(s: State): State {
    var replay := After(s.journal, LastSeq(s.client));
    var from := if LastSeq(s.client) == 0 then |s.history| - |replay| else LastSeq(s.client);
    s.(session := Streaming(from, [], replay, [], false), client := s.client.(gap := false))
  }

  /** Opening a stream in one piece while no append is half done is always careful. (Appends must
      still fan out in order and without failing afterwards.) */
  lemma AtomicOpenIsCareful(cfg: Config, s: State)
    requires Sane(s) && s.drain.None? && s.inFlight == [] && s.session.Closed?
    requires Available(s.journal, LastSeq(s.client))
    ensures Run(cfg, s, [ParseCursor] + [Replay, Subscribe]) == Some(Opened(s))
  {
    var t := Apply(cfg, s, ParseCursor);
    RunOne(cfg, s, ParseCursor, [Replay, Subscribe]);
    RunTwo(cfg, t, Replay, Subscribe);
  }

  // ------------------------------------------------------------- the blocked client

  const FAMILIES := ["thread", "turn", "task", "item", "hook", "rawResponseItem", "serverRequest"]

  lemma FamiliesAreThePrefixes(i: nat)
    requires i < |METHOD_PREFIXES|
    ensures |FAMILIES| == |METHOD_PREFIXES| && METHOD_PREFIXES[i] == FAMILIES[i] + "/" && '/' !in FAMILIES[i]
  {
  }

  /** Two texts that agree up to their first slash. */
  lemma UpToSlash(a: string, b: string, rest: string)
    requires '/' !in a && '/' !in b
    ensures a + "/" <= b + "/" + rest <==> a == b
  {
    var t := b + "/" + rest;
    if a + "/" <= t {
      assert t[|a|] == (a + "/")[|a|] == '/' && t[|b|] == '/';
      assert forall i | 0 <= i < |a| :: t[i] == (a + "/")[i] == a[i];
      assert forall i | 0 <= i < |b| :: t[i] == b[i];
      assert a == t[..|a|] == b;
    }
  }

  /** A method whose name has a slash is let through if and only if what comes before the slash is one
      of seven families, or it is one of the names of their own. */
  lemma RoutedFamilies(family: string, rest: string)
    requires '/' !in family && Trimmed(family + "/" + rest)
    ensures SessionMethod(family + "/" + rest)
       <==> family in FAMILIES || family + "/" + rest in EXPLICIT_METHODS
  {
    var name := family + "/" + rest;
    StripOfTrimmed(name);
    forall i | 0 <= i < |METHOD_PREFIXES|
      ensures METHOD_PREFIXES[i] <= name <==> FAMILIES[i] == family
    {
      FamiliesAreThePrefixes(i);
      UpToSlash(FAMILIES[i], family, rest);
    }
  }

  lemma RoutedMethods()
    ensures SessionMethod("turn/started") && !SessionMethod("model/rerouted")
  {
    assert "turn" == FAMILIES[1] && "turn" + "/" + "started" == "turn/started";
    RoutedFamilies("turn", "started");
    assert "model" + "/" + "rerouted" == "model/rerouted";
    assert "model" !in FAMILIES && "model/rerouted" !in EXPLICIT_METHODS;
    RoutedFamilies("model", "rerouted");
  }

  /** These are the names of their own; padding does not matter. */
  lemma RoutedNames(before: string, name: string, after: string)
    requires AllSpace(before) && AllSpace(after)
    requires name in {"error", "warning", "user/message", "user_message", "assistant/message", "assistant_message",
                      "agent/message"}
    ensures SessionMethod(before + name + after)
  {
    StripOfPadded(before, name, after);
  }

  /** The store holds one event, already fanned out. */
  function OneEvent(e: Event, session: Session, applied: seq<Event>): State {
    State([e], [e], 1, [], None, session, Client(applied, false))
  }

  lemma OneJournaled(cfg: Config, e: Event) returns (trace: seq<Step>)
    requires ValidConfig(cfg) && e.eventSeq == 1
    ensures Run(cfg, INITIAL, trace) == Some(OneEvent(e, Closed, []))
  {
    trace := [Append(e.occurredAtMs, e.methodName, e.body), FanOut(0)];
    FirstAppend(cfg, Closed, e.occurredAtMs, e.methodName, e.body);
    assert Without([e], 0) == [];
    RunTwo(cfg, INITIAL, trace[0], trace[1]);
  }

  lemma OneReplayed(cfg: Config, e: Event)
    requires ValidConfig(cfg) && e.eventSeq == 1
    ensures Run(cfg, OneEvent(e, Closed, []), [ParseCursor, Replay]) == Some(OneEvent(e, Replayed(0, [e], 1), []))
  {
    AfterZero([e]);
    RunTwo(cfg, OneEvent(e, Closed, []), ParseCursor, Replay);
  }

  lemma OneApplied(cfg: Config, e: Event)
    requires ValidConfig(cfg) && e.eventSeq == 1 && Visible(cfg, e)
    ensures Run(cfg, OneEvent(e, Replayed(0, [e], 1), []), [Subscribe, Deliver])
         == Some(OneEvent(e, Streaming(0, [e], [], [], false), [e]))
  {
    var s := OneEvent(e, Replayed(0, [e], 1), []);
    var t := OneEvent(e, Streaming(0, [], [e], [], false), []);
    assert s.history[1..] == [];
    assert Apply(cfg, s, Subscribe) == t;
    assert [e][1..] == [] && [] + [e] == [e];
    assert Apply(cfg, t, Deliver) == OneEvent(e, Streaming(0, [e], [], [], false), [e]);
    RunTwo(cfg, s, Subscribe, Deliver);
  }

  lemma FirstEventApplied(cfg: Config, e: Event) returns (trace: seq<Step>)
    requires ValidConfig(cfg) && e.eventSeq == 1 && Visible(cfg, e)
    ensures Run(cfg, INITIAL, trace) == Some(OneEvent(e, Streaming(0, [e], [], [], false), [e]))
  {
    var first := OneJournaled(cfg, e);
    OneReplayed(cfg, e);
    OneApplied(cfg, e);
    var closed, replayed := OneEvent(e, Closed, []), OneEvent(e, Replayed(0, [e], 1), []);
    Chain(cfg, INITIAL, first, closed, [ParseCursor, Replay], replayed);
    trace := first + [ParseCursor, Replay];
    Chain(cfg, INITIAL, trace, replayed, [Subscribe, Deliver], OneEvent(e, Streaming(0, [e], [], [], false), [e]));
    trace := trace + [Subscribe, Deliver];
  }

  /** A method that the route leaves out, or that nobody listens for. */
  predicate LeftOut(cfg: Config, name: string) { !SessionMethod(name) || !cfg.listens(name) }

  lemma HiddenAppended(cfg: Config, s: State, name: string) returns (trace: seq<Step>, t: State)
    requires LeftOut(cfg, name)
    requires s.history != [] && s.sequence == |s.history| == LastSeq(s.client) && s.drain.None?
    ensures Run(cfg, s, trace) == Some(t) && Blocked(cfg, t) && t.client == s.client
  {
    var append := Append(0, name, Null);
    t := Apply(cfg, s, append);
    assert t.history[|s.history|].methodName == name;
    RunOne(cfg, s, append, []);
    trace := [append] + [];
  }

  /** A careful run in which a client applies a first event and is then blocked: one journaled
      notification that the route leaves out, or that the client does not listen for, is enough. */
  lemma BlockedIsReachable(cfg: Config, e: Event, name: string) returns (trace: seq<Step>)
    requires ValidConfig(cfg) && e.eventSeq == 1 && Visible(cfg, e) && LeftOut(cfg, name)
    ensures Run(cfg, INITIAL, trace).Some?
    ensures var s := Run(cfg, INITIAL, trace).value; Sane(s) && Blocked(cfg, s) && s.client.applied == [e]
  {
    var first := FirstEventApplied(cfg, e);
    var s := OneEvent(e, Streaming(0, [e], [], [], false), [e]);
    var last, t := HiddenAppended(cfg, s, name);
    Chain(cfg, INITIAL, first, s, last, t);
    trace := first + last;
    RunKeepsInv(cfg, INITIAL, trace);
  }

  // ------------------------------------------------------- a reader in a full queue's drain

  /** The route waits for a full queue, and an event is about to be fanned out. */
  ghost predicate AboutToOverflow(cfg: Config, s: State) {
    InStep(s) && s.session.reading && |s.session.queue| >= cfg.capacity >= 2 && s.inFlight != []
  }

  /** After the first drop. */
  function OneDropped(s: State): State
    requires s.session.Streaming? && s.session.queue != [] && s.inFlight != []
  {
    s.(inFlight := s.inFlight[1..], drain := Some(1), session := s.session.(queue := s.session.queue[1..]))
  }

  lemma OneIsDropped(cfg: Config, s: State)
    requires AboutToOverflow(cfg, s)
    ensures Run(cfg, s, [FanOut(0), DropOne]) == Some(OneDropped(s))
  {
    assert Without(s.inFlight, 0) == s.inFlight[1..];
    RunTwo(cfg, s, FanOut(0), DropOne);
  }

  /** A reader that comes then gets the second queued event and never the first. A client that was up
      to date flags a gap without being blocked; a client that has applied nothing yet does not even
      notice. */
  lemma OverflowRace(cfg: Config, s: State)
    requires ValidConfig(cfg) && Inv(s) && AboutToOverflow(cfg, s)
    ensures Run(cfg, s, [FanOut(0), DropOne]) == Some(OneDropped(s))
    ensures Enabled(OneDropped(s), Deliver) && !Careful(cfg, OneDropped(s), Deliver)
    ensures var t := Apply(cfg, OneDropped(s), Deliver);
            var lost, taken := s.session.queue[0].event, s.session.queue[1].event;
            && t.session.passed == s.session.passed + [taken] && !Lossless(t)
            && lost.eventSeq == s.session.from + |s.session.passed| + 1 < |s.history|
            && lost == s.history[lost.eventSeq - 1] && taken == s.history[lost.eventSeq]
            && (Visible(cfg, lost) && Visible(cfg, taken) ==>
                  if s.client.applied == [] then t.client == s.client.(applied := [taken])
                  else 0 < LastSeq(s.client) == lost.eventSeq - 1 ==> t.client.gap && !Blocked(cfg, t))
  {
    var Streaming(from, passed, outbox, queue, _) := s.session;
    OneIsDropped(cfg, s);
    assert LiveEvents(queue) == [queue[0].event] + ([queue[1].event] + LiveEvents(queue[2..])) by {
      assert queue[1..][1..] == queue[2..];
    }
    assert Pipeline(s)[|passed|] == queue[0].event && Pipeline(s)[|passed| + 1] == queue[1].event;
    assert queue[0].event == s.history[from + |passed|] && queue[1].event == s.history[from + |passed| + 1];
    var t := Apply(cfg, OneDropped(s), Deliver);
    assert t.session.passed[|passed|] == queue[1].event;
    if Lossless(t) { LastFollows(t.session.passed, t.history, from); }
  }

  ghost predicate Queued(cfg: Config, s: State, from: nat, handled: seq<Event>) {
    && Inv(s) && InStep(s) && s.inFlight == [] && s.session.reading
    && s.session.from == from && s.session.passed == handled
    && forall i | 0 <= i < |s.session.queue| :: Visible(cfg, s.session.queue[i].event)
  }

  /** One more visible event in the queue. */
  lemma QueueOne(cfg: Config, s: State, from: nat, handled: seq<Event>, name: string)
    returns (trace: seq<Step>, t: State)
    requires ValidConfig(cfg) && SessionMethod(name) && cfg.listens(name)
    requires Queued(cfg, s, from, handled) && |s.session.queue| < cfg.capacity
    ensures Run(cfg, s, trace) == Some(t) && Queued(cfg, t, from, handled) && t.client == s.client
    ensures |t.session.queue| == |s.session.queue| + 1
  {
    trace := [Append(0, name, Null), FanOut(0)];
    var u := Apply(cfg, s, trace[0]);
    t := Apply(cfg, u, FanOut(0));
    assert u.inFlight == [Event(s.sequence + 1, 0, name, Null)];
    assert Without(u.inFlight, 0) == [];
    RunTwo(cfg, s, trace[0], trace[1]);
    RunKeepsInv(cfg, s, trace);
  }

  /** A full queue of visible events, and one more on its way. */
  lemma {:induction false} FillQueue(cfg: Config, s: State, from: nat, handled: seq<Event>, name: string)
    returns (trace: seq<Step>, t: State)
    requires ValidConfig(cfg) && cfg.capacity >= 2 && SessionMethod(name) && cfg.listens(name)
    requires Queued(cfg, s, from, handled) && |s.session.queue| <= cfg.capacity
    ensures Run(cfg, s, trace) == Some(t) && Inv(t) && AboutToOverflow(cfg, t) && t.client == s.client
    ensures t.session.from == from && t.session.passed == handled
    ensures forall i | 0 <= i < |t.session.queue| :: Visible(cfg, t.session.queue[i].event)
    decreases cfg.capacity - |s.session.queue|
  {
    if |s.session.queue| == cfg.capacity {
      var append := Append(0, name, Null);
      t := Apply(cfg, s, append);
      RunOne(cfg, s, append, []);
      trace := [append] + [];
      RunKeepsInv(cfg, s, trace);
    } else {
      var one, u := QueueOne(cfg, s, from, handled, name);
      var rest, v := FillQueue(cfg, u, from, handled, name);
      Chain(cfg, s, one, u, rest, v);
      trace, t := one + rest, v;
    }
  }

  /** From an empty store, with a client that has applied nothing: a visible event is lost, the one
      after it is applied, and nothing tells the client. */
  lemma OverflowLosesSilently(cfg: Config, name: string) returns (trace: seq<Step>)
    requires ValidConfig(cfg) && cfg.capacity >= 2 && SessionMethod(name) && cfg.listens(name)
    ensures Run(cfg, INITIAL, trace).Some?
    ensures var s := Run(cfg, INITIAL, trace).value;
            && Enabled(s, Deliver) && !Careful(cfg, s, Deliver) && |s.history| > 1 && Visible(cfg, s.history[0])
            && Apply(cfg, s, Deliver).client == Client([s.history[1]], false)
  {
    var open, s := ReadingAtOnce(cfg);
    var fill, t := FillQueue(cfg, s, 0, [], name);
    Chain(cfg, INITIAL, open, s, fill, t);
    OverflowRace(cfg, t);
    Chain(cfg, INITIAL, open + fill, t, [FanOut(0), DropOne], OneDropped(t));
    trace := open + fill + [FanOut(0), DropOne];
  }

  lemma ReadingAtOnce(cfg: Config) returns (trace: seq<Step>, s: State)
    requires ValidConfig(cfg)
    ensures Run(cfg, INITIAL, trace) == Some(s) && s.client == Client([], false)
    ensures Queued(cfg, s, 0, []) && s.session.queue == []
  {
    var t := INITIAL.(session := Replayed(0, [], 0));
    assert Apply(cfg, Apply(cfg, INITIAL, ParseCursor), Replay) == t;
    RunTwo(cfg, INITIAL, ParseCursor, Replay);
    s := INITIAL.(session := Streaming(0, [], [], [], true));
    RunTwo(cfg, t, Subscribe, BeginRead);
    Chain(cfg, INITIAL, [ParseCursor, Replay], t, [Subscribe, BeginRead], s);
    trace := [ParseCursor, Replay] + [Subscribe, BeginRead];
  }

  /** The same with a client that has applied one event: it flags a gap although the next event is not
      hidden from it. */
  lemma OverflowLeavesGap(cfg: Config, name: string) returns (trace: seq<Step>)
    requires ValidConfig(cfg) && cfg.capacity >= 2 && SessionMethod(name) && cfg.listens(name)
    ensures Run(cfg, INITIAL, trace).Some?
    ensures var s := Run(cfg, INITIAL, trace).value;
            && Enabled(s, Deliver) && !Careful(cfg, s, Deliver)
            && Apply(cfg, s, Deliver).client.gap && !Blocked(cfg, Apply(cfg, s, Deliver))
  {
    var first, s := ReadingAfterOne(cfg, name);
    var fill, t := FillQueue(cfg, s, 0, s.client.applied, name);
    Chain(cfg, INITIAL, first, s, fill, t);
    OverflowRace(cfg, t);
    Chain(cfg, INITIAL, first + fill, t, [FanOut(0), DropOne], OneDropped(t));
    trace := first + fill + [FanOut(0), DropOne];
  }

  lemma ReadingAfterOne(cfg: Config, name: string) returns (trace: seq<Step>, s: State)
    requires ValidConfig(cfg) && SessionMethod(name) && cfg.listens(name)
    ensures Run(cfg, INITIAL, trace) == Some(s) && |s.client.applied| == 1 == LastSeq(s.client)
    ensures Queued(cfg, s, 0, s.client.applied) && s.session.queue == []
  {
    var e := Event(1, 0, name, Null);
    var first := FirstEventApplied(cfg, e);
    var t := OneEvent(e, Streaming(0, [e], [], [], false), [e]);
    s := OneEvent(e, Streaming(0, [e], [], [], true), [e]);
    RunOne(cfg, t, BeginRead, []);
    Chain(cfg, INITIAL, first, t, [BeginRead] + [], s);
    trace := first + ([BeginRead] + []);
    RunKeepsInv(cfg, INITIAL, trace);
  }

  /** A queue never holds more than its capacity, counting what a drain has dropped. */
  ghost predicate Fits(cfg: Config, s: State) {
    s.session.Streaming? ==>
      |s.session.queue| + (match s.drain case Some(dropped) => dropped case None => 0) <= cfg.capacity
  }

  lemma StepFits(cfg: Config, s: State, e: Step)
    requires ValidConfig(cfg) && Fits(cfg, s) && Enabled(s, e)
    ensures Fits(cfg, Apply(cfg, s, e))
  {
  }

  lemma {:induction false} ExecFits(cfg: Config, s: State, trace: seq<Step>)
    requires ValidConfig(cfg) && Fits(cfg, s) && Exec(cfg, s, trace).Some?
    ensures Fits(cfg, Exec(cfg, s, trace).value)
    decreases |trace|
  {
    if trace != [] {
      StepFits(cfg, s, trace[0]);
      ExecFits(cfg, Apply(cfg, s, trace[0]), trace[1..]);
    }
  }

  /** So with a capacity of one no run at all reaches the race. */
  lemma QueueFits(cfg: Config, trace: seq<Step>)
    requires ValidConfig(cfg) && Exec(cfg, INITIAL, trace).Some?
    ensures Fits(cfg, Exec(cfg, INITIAL, trace).value)
    ensures cfg.capacity == 1 ==> !TakesFromDrain(Exec(cfg, INITIAL, trace).value)
  {
    ExecFits(cfg, INITIAL, trace);
  }

  // ------------------------------------------------- the drain and the store's fan-out

  lemma {:induction false} ExecJoins(cfg: Config, s: State, a: seq<Step>, t: State, b: seq<Step>)
    requires Exec(cfg, s, a) == Some(t)
    ensures Exec(cfg, s, a + b) == Exec(cfg, t, b)
    decreases |a|
  {
    if a == [] {
      assert a + b == b;
    } else {
      assert (a + b)[1..] == a[1..] + b;
      ExecJoins(cfg, Apply(cfg, s, a[0]), a[1..], t, b);
    }
  }

  lemma ExecOne(cfg: Config, s: State, e: Step)
    requires Enabled(s, e)
    ensures Exec(cfg, s, [e]) == Some(Apply(cfg, s, e))
  {
    assert Exec(cfg, Apply(cfg, s, e), [e][1..]) == Some(Apply(cfg, s, e));
  }

  /** In the middle of a drain, `n` items further on. */
  function Drops(s: State, n: nat): State
    requires s.drain.Some? && s.session.Streaming? && n <= |s.session.queue|
  {
    s.(drain := Some(s.drain.value + n), session := s.session.(queue := s.session.queue[n..]))
  }

  lemma {:induction false} DropsHappen(cfg: Config, s: State, n: nat) returns (trace: seq<Step>)
    requires s.drain.Some? && s.session.Streaming? && n <= |s.session.queue|
    ensures Exec(cfg, s, trace) == Some(Drops(s, n))
    decreases n
  {
    if n == 0 {
      trace := [];
    } else {
      var u := Apply(cfg, s, DropOne);
      var rest := DropsHappen(cfg, u, n - 1);
      ExecOne(cfg, s, DropOne);
      ExecJoins(cfg, s, [DropOne], u, rest);
      trace := [DropOne] + rest;
    }
  }

  /** The rest of a drain. */
  lemma DrainEnds(cfg: Config, s: State) returns (trace: seq<Step>, t: State)
    requires s.drain.Some? && s.session.Streaming?
    ensures Exec(cfg, s, trace) == Some(t)
    ensures t == s.(drain := None,
                    session := s.session.(queue := [Lagged(s.drain.value + |s.session.queue|)]))
  {
    var drops := DropsHappen(cfg, s, |s.session.queue|);
    var u := Drops(s, |s.session.queue|);
    t := Apply(cfg, u, PutControl);
    ExecOne(cfg, u, PutControl);
    ExecJoins(cfg, s, drops, u, [PutControl]);
    trace := drops + [PutControl];
  }

  /** The steps of a fan-out, with a reader in the middle of the drain or without, come to what the
      store's method says. */
  lemma FanOutIsOffered(cfg: Config, s: State, k: nat, overlap: Option<nat>) returns (trace: seq<Step>, t: State)
    requires InStep(s) && Enabled(s, FanOut(k)) && (s.session.reading ==> s.session.outbox == [])
    requires overlap.Some? ==> s.session.reading
    ensures Exec(cfg, s, trace) == Some(t) && t.session.Streaming? && t.drain.None?
    ensures t.inFlight == Without(s.inFlight, k)
    ensures t.session.queue == Offered(s.session.queue, cfg.capacity, s.inFlight[k], overlap)
    ensures var taken := TakenDuring(s.session.queue, cfg.capacity, overlap);
            t.session.passed == if taken.Some? then s.session.passed + [taken.value.event] else s.session.passed
  {
    var queue := s.session.queue;
    var u := Apply(cfg, s, FanOut(k));
    ExecOne(cfg, s, FanOut(k));
    trace, t := [FanOut(k)], u;
    if |queue| >= cfg.capacity {
      if overlap.Some? && overlap.value < |queue| {
        var drops := DropsHappen(cfg, u, overlap.value);
        var v := Drops(u, overlap.value);
        ExecJoins(cfg, s, trace, u, drops);
        ExecOne(cfg, v, Deliver);
        ExecJoins(cfg, s, trace + drops, v, [Deliver]);
        trace, t := trace + drops + [Deliver], Apply(cfg, v, Deliver);
      }
      var rest, w := DrainEnds(cfg, t);
      ExecJoins(cfg, s, trace, t, rest);
      trace, t := trace + rest, w;
    }
  }

  /** How many items the route handles in a run. */
  function Deliveries(trace: seq<Step>): nat {
    if trace == [] then 0 else (if trace[0].Deliver? then 1 else 0) + Deliveries(trace[1..])
  }

  /** Whatever the order of drops and a reader's delivery: a drain that ends has counted every item it did
      not hand over, and it hands over at most one. */
  lemma {:induction false} DrainCounts(cfg: Config, s: State, trace: seq<Step>)
    requires s.drain.Some? && s.session.Streaming? && s.session.outbox == []
    requires forall i | 0 <= i < |trace| :: trace[i].DropOne? || trace[i].Deliver?
    requires Exec(cfg, s, trace).Some? && Exec(cfg, s, trace).value.session.Streaming?
    requires Enabled(Exec(cfg, s, trace).value, PutControl)
    ensures var t := Apply(cfg, Exec(cfg, s, trace).value, PutControl);
            && |t.session.queue| == 1 && t.session.queue[0].Lagged?
            && t.session.queue[0].skipped + Deliveries(trace) == s.drain.value + |s.session.queue|
            && |t.session.passed| == |s.session.passed| + Deliveries(trace)
    ensures Deliveries(trace) <= if s.session.reading then 1 else 0
    decreases |trace|
  {
    if trace != [] {
      var u := Apply(cfg, s, trace[0]);
      assert forall i | 0 <= i < |trace[1..]| :: trace[1..][i] == trace[i + 1];
      ClosedStops(cfg, u, trace[1..]);
      DrainCounts(cfg, u, trace[1..]);
    }
  }

  lemma ClosedStops(cfg: Config, s: State, trace: seq<Step>)
    requires Exec(cfg, s, trace).Some? && forall i | 0 <= i < |trace| :: trace[i].DropOne? || trace[i].Deliver?
    ensures s.session.Streaming? || trace == []
  {
  }

  /** A failing observer is a race of its own: as long as a client is in step and something is in flight,
      the next event can be lost, and then the connection's promise with it. */
  lemma ObserverRace(cfg: Config, s: State) returns (trace: seq<Step>)
    requires ValidConfig(cfg) && Inv(s) && InStep(s) && s.inFlight != []
    ensures Enabled(s, ObserverFails(0)) && !Careful(cfg, s, ObserverFails(0))
    ensures var t := Apply(cfg, s, ObserverFails(0)); Run(cfg, t, trace).Some? && !Lossless(Run(cfg, t, trace).value)
  {
    trace := CarelessObserver(cfg, s, 0);
  }
}
