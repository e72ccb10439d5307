/** The care a store has to take, and what its clients then can rely on. */
module EventStreamCare {
  import opened Options
  import opened Json
  import opened Numbers
  import opened EventJournal
  import opened EventStream

  // ------------------------------------------------------------------ the promise

  /** `xs` is the part of the history that follows number `from`, as far as it goes. */
  ghost predicate Follows(xs: seq<Event>, history: seq<Event>, from: int) {
    0 <= from && from + |xs| <= |history| && xs == history[from..from + |xs|]
  }

  /** The promise of a connection: what the route has handled is a gapless, duplicate-free, ordered
      stretch of everything ever journaled, starting right after the client's cursor. */
  ghost predicate Lossless(s: State) {
    s.session.Streaming? ==> Follows(s.session.passed, s.history, s.session.from)
  }

  function LiveEvents(queue: seq<QueueItem>): seq<Event> {
    if queue == [] then []
    else (match queue[0] case Live(event) => [event] case Lagged(_) => []) + LiveEvents(queue[1..])
  }

  ghost predicate AllLive(queue: seq<QueueItem>) { forall i | 0 <= i < |queue| :: queue[i].Live? }

  /** The client has an open stream that has not lagged. */
  ghost predicate InStep(s: State) { s.session.Streaming? && s.drain.None? && AllLive(s.session.queue) }

  /** Everything handled, waiting to be handled, queued and still to be fanned out. */
  function Pipeline(s: State): seq<Event>
    requires s.session.Streaming?
  {
    s.session.passed + s.session.outbox + LiveEvents(s.session.queue) + s.inFlight
  }

  /** What has to be respected for the promise to hold. Appenders must fan out in journal order and
      without failing while a client listens; the cursor must still be available when the replay is
      read; at subscription the events in flight must be exactly those journaled since; and once a
      drain has dropped something, an overlapping reader must not get a live item, unless by chance
      it is the very next event. */
  ghost predicate Careful(cfg: Config, s: State, e: Step)
    requires Enabled(s, e)
  {
    match e
    case FanOut(k) => k == 0 || !InStep(s) || |s.session.queue| >= cfg.capacity
    case ObserverFails(_) => !InStep(s)
    case Replay => Available(s.journal, s.session.cursor)
    case Subscribe => s.session.upTo <= |s.history| && s.inFlight == s.history[s.session.upTo..]
    case Deliver => !TakesFromDrain(s) || s.session.queue[0].event.eventSeq == s.session.from + |s.session.passed| + 1
    case _ => true
  }

  /** The next thing the route handles is a live item taken out of the middle of a drain. */
  predicate TakesFromDrain(s: State) {
    && s.drain.Some? && s.drain.value > 0
    && s.session.Streaming? && s.session.outbox == [] && s.session.queue != [] && s.session.queue[0].Live?
  }

  /** The state after a run of careful steps. */
  ghost function Run(cfg: Config, s: State, trace: seq<Step>): Option<State>
    decreases |trace|
  {
    if trace == [] then Some(s)
    else if Enabled(s, trace[0]) && Careful(cfg, s, trace[0]) then Run(cfg, Apply(cfg, s, trace[0]), trace[1..])
    else None
  }

  lemma {:induction false} RunIsExec(cfg: Config, s: State, trace: seq<Step>)
    requires Run(cfg, s, trace).Some?
    ensures Exec(cfg, s, trace) == Run(cfg, s, trace)
    decreases |trace|
  {
    if trace != [] { RunIsExec(cfg, Apply(cfg, s, trace[0]), trace[1..]); }
  }

  // ---------------------------------------------------------------- preservation

  ghost predicate SessionInLine(s: State) {
    match s.session
    case CursorParsed(cursor) => cursor <= |s.history|
    case Replayed(from, replay, upTo) => 0 <= from <= upTo <= |s.history| && replay == s.history[from..upTo]
    case Streaming(from, passed, outbox, queue, reading) =>
      && (reading ==> outbox == [])
      && if s.drain.None? then
           if AllLive(queue) then 0 <= from <= |s.history| && Pipeline(s) == s.history[from..]
           else queue[0].Lagged? && Follows(passed + outbox, s.history, from)
         else
           && Follows(passed + outbox, s.history, from)
           && (s.drain == Some(0) ==>
                 if AllLive(queue) then Follows(passed + outbox + LiveEvents(queue), s.history, from)
                 else queue[0].Lagged?)
    case _ => true
  }

  ghost predicate Inv(s: State) { Sane(s) && SessionInLine(s) }

  lemma PrefixFollows(xs: seq<Event>, rest: seq<Event>, history: seq<Event>, from: int)
    requires Follows(xs + rest, history, from)
    ensures Follows(xs, history, from)
  {
    assert xs == (xs + rest)[..|xs|];
  }

  lemma InvLossless(s: State)
    requires Inv(s)
    ensures Lossless(s)
  {
    if s.session.Streaming? {
      var Streaming(from, passed, outbox, queue, _) := s.session;
      var rest := if InStep(s) then outbox + LiveEvents(queue) + s.inFlight else outbox;
      assert InStep(s) ==> passed + rest == Pipeline(s);
      PrefixFollows(passed, rest, s.history, from);
    }
  }

  lemma {:induction false} LiveEventsAppend(queue: seq<QueueItem>, event: Event)
    ensures LiveEvents(queue + [Live(event)]) == LiveEvents(queue) + [event]
  {
    if queue != [] {
      assert (queue + [Live(event)])[1..] == queue[1..] + [Live(event)];
      LiveEventsAppend(queue[1..], event);
    }
  }

  lemma QueuedInOrder(cfg: Config, s: State)
    requires SessionInLine(s) && InStep(s) && s.inFlight != [] && |s.session.queue| < cfg.capacity
    ensures SessionInLine(Apply(cfg, s, FanOut(0)))
  {
    var t := Apply(cfg, s, FanOut(0));
    assert t.inFlight == s.inFlight[1..];
    LiveEventsAppend(s.session.queue, s.inFlight[0]);
    MoveOne(s.session.passed + s.session.outbox, LiveEvents(s.session.queue), s.inFlight);
    assert Pipeline(t) == Pipeline(s);
    assert AllLive(t.session.queue);
  }

  lemma MoveOne(a: seq<Event>, b: seq<Event>, c: seq<Event>)
    requires c != []
    ensures a + (b + [c[0]]) + c[1..] == a + b + c
  {
  }

  /** A full queue starts to be drained: what the route has handled, still replays and could still take
      first is a stretch of the journal. */
  lemma QueueOverflows(cfg: Config, s: State, k: nat)
    requires SessionInLine(s) && InStep(s) && s.drain.None? && k < |s.inFlight| && |s.session.queue| >= cfg.capacity
    ensures SessionInLine(Apply(cfg, s, FanOut(k)))
  {
    var sent, queued := s.session.passed + s.session.outbox, LiveEvents(s.session.queue);
    assert sent + queued + s.inFlight == Pipeline(s);
    PrefixFollows(sent + queued, s.inFlight, s.history, s.session.from);
    PrefixFollows(sent, queued, s.history, s.session.from);
  }

  lemma FanOutInLine(cfg: Config, s: State, k: nat)
    requires ValidConfig(cfg) && SessionInLine(s) && Enabled(s, FanOut(k)) && Careful(cfg, s, FanOut(k))
    ensures SessionInLine(Apply(cfg, s, FanOut(k)))
  {
    if InStep(s) && |s.session.queue| < cfg.capacity {
      QueuedInOrder(cfg, s);
    } else if InStep(s) {
      QueueOverflows(cfg, s, k);
    }
  }

  lemma ReplayedInLine(cfg: Config, s: State)
    requires SessionInLine(s) && Enabled(s, Deliver) && s.session.outbox != []
    ensures SessionInLine(Apply(cfg, s, Deliver))
  {
    var Streaming(_, passed, outbox, queue, _) := s.session;
    var t := Apply(cfg, s, Deliver);
    MoveOne(passed, [], outbox);
    assert passed + ([] + [outbox[0]]) == t.session.passed && passed + [] == passed;
    assert t.session.passed + t.session.outbox == passed + outbox;
  }

  lemma TakeOne(a: seq<Event>, e: Event, rest: seq<Event>, c: seq<Event>)
    ensures a + [] + ([e] + rest) + c == a + [e] + [] + rest + c
    ensures a + [] + ([e] + rest) == a + [e] + [] + rest
  {
  }

  lemma LiveInLine(cfg: Config, s: State)
    requires SessionInLine(s) && Enabled(s, Deliver) && s.session.outbox == [] && InStep(s)
    ensures SessionInLine(Apply(cfg, s, Deliver))
  {
    var Streaming(_, passed, outbox, queue, _) := s.session;
    var t := Apply(cfg, s, Deliver);
    TakeOne(passed, queue[0].event, LiveEvents(queue[1..]), s.inFlight);
    assert Pipeline(t) == Pipeline(s);
    assert AllLive(t.session.queue);
  }

  /** A reader that overlaps a drain before anything is dropped. */
  lemma EarlyReaderInLine(cfg: Config, s: State)
    requires SessionInLine(s) && Enabled(s, Deliver) && s.session.outbox == []
    requires s.drain == Some(0) && AllLive(s.session.queue)
    ensures SessionInLine(Apply(cfg, s, Deliver))
  {
    var Streaming(from, passed, outbox, queue, _) := s.session;
    var t := Apply(cfg, s, Deliver);
    TakeOne(passed, queue[0].event, LiveEvents(queue[1..]), []);
    assert AllLive(t.session.queue);
    PrefixFollows(passed + [queue[0].event] + [], LiveEvents(queue[1..]), s.history, from);
  }

  lemma LateReaderInLine(cfg: Config, s: State)
    requires Inv(s) && Enabled(s, Deliver) && TakesFromDrain(s) && Careful(cfg, s, Deliver)
    ensures SessionInLine(Apply(cfg, s, Deliver))
  {
    var Streaming(from, passed, outbox, queue, _) := s.session;
    assert passed + outbox == passed;
    assert Known(queue[0].event, s.history);
    assert s.history[from..from + |passed| + 1] == passed + [queue[0].event];
    assert passed + [queue[0].event] + [] == passed + [queue[0].event];
  }

  lemma DeliverInLine(cfg: Config, s: State)
    requires Inv(s) && Enabled(s, Deliver) && Careful(cfg, s, Deliver)
    ensures SessionInLine(Apply(cfg, s, Deliver))
  {
    if s.session.outbox != [] {
      ReplayedInLine(cfg, s);
    } else if s.session.queue[0].Live? {
      if InStep(s) {
        LiveInLine(cfg, s);
      } else if s.drain == Some(0) {
        EarlyReaderInLine(cfg, s);
      } else {
        LateReaderInLine(cfg, s);
      }
    }
  }

  lemma DrainInLine(cfg: Config, s: State, e: Step)
    requires SessionInLine(s) && Enabled(s, e) && (e.DropOne? || e.PutControl?)
    ensures SessionInLine(Apply(cfg, s, e))
  {
    if e.PutControl? && s.session.Streaming? {
      assert !AllLive(Apply(cfg, s, e).session.queue) by { assert Apply(cfg, s, e).session.queue[0].Lagged?; }
    }
  }

  /** A replay at an available cursor. */
  lemma ReplayIsStretch(journal: seq<Event>, history: seq<Event>, cursor: nat)
    requires Numbered(history) && Retained(journal, history) && cursor <= |history| && Available(journal, cursor)
    ensures cursor == 0 ==> After(journal, cursor) == journal == history[|history| - |journal|..|history|]
    ensures cursor > 0 ==> After(journal, cursor) == history[cursor..|history|]
  {
    AcceptedCursors(journal, history, cursor);
  }

  lemma ReplayInLine(cfg: Config, s: State)
    requires StoreInv(s) && SessionInLine(s) && Enabled(s, Replay) && Careful(cfg, s, Replay)
    ensures SessionInLine(Apply(cfg, s, Replay))
  {
    ReplayIsStretch(s.journal, s.history, s.session.cursor);
  }

  lemma AppendInLine(cfg: Config, s: State, nowMs: int, methodName: string, body: Json)
    requires SessionInLine(s) && s.drain.None?
    ensures SessionInLine(Apply(cfg, s, Append(nowMs, methodName, body)))
  {
    var t := Apply(cfg, s, Append(nowMs, methodName, body));
    assert forall i, j | 0 <= i <= j <= |s.history| :: t.history[i..j] == s.history[i..j];
    if InStep(s) {
      assert Pipeline(t) == Pipeline(s) + [t.history[|s.history|]];
    }
  }

  lemma Glue(h: seq<Event>, base: nat, from: nat, xs: seq<Event>)
    requires base <= from <= |h| && xs == h[base..from]
    ensures xs + h[from..] == h[base..]
  {
  }

  lemma SubscribeInLine(cfg: Config, s: State)
    requires SessionInLine(s) && Enabled(s, Subscribe) && Careful(cfg, s, Subscribe)
    ensures SessionInLine(Apply(cfg, s, Subscribe))
  {
    var Replayed(from, replay, upTo) := s.session;
    Glue(s.history, from, upTo, replay);
    assert Pipeline(Apply(cfg, s, Subscribe)) == replay + s.inFlight;
  }

  lemma StepInLine(cfg: Config, s: State, e: Step)
    requires ValidConfig(cfg) && Inv(s) && Enabled(s, e) && Careful(cfg, s, e)
    ensures SessionInLine(Apply(cfg, s, e))
  {
    match e
    case Append(nowMs, methodName, body) => AppendInLine(cfg, s, nowMs, methodName, body);
    case FanOut(k) => FanOutInLine(cfg, s, k);
    case Replay => ReplayInLine(cfg, s);
    case Deliver => DeliverInLine(cfg, s);
    case Subscribe => SubscribeInLine(cfg, s);
    case DropOne => DrainInLine(cfg, s, e);
    case PutControl => DrainInLine(cfg, s, e);
    case _ =>
  }

  lemma {:induction false} RunKeepsInv(cfg: Config, s: State, trace: seq<Step>)
    requires ValidConfig(cfg) && Inv(s) && Run(cfg, s, trace).Some?
    ensures Inv(Run(cfg, s, trace).value)
    decreases |trace|
  {
    if trace != [] {
      StepIsSane(cfg, s, trace[0]);
      StepInLine(cfg, s, trace[0]);
      RunKeepsInv(cfg, Apply(cfg, s, trace[0]), trace[1..]);
    }
  }

  /** Over every careful run, through any number of connections, lags, reconnections and restarts,
      each connection handles a gapless stretch of the journal, each event once and in order. */
  lemma LosslessDelivery(cfg: Config, trace: seq<Step>)
    requires ValidConfig(cfg) && Run(cfg, INITIAL, trace).Some?
    ensures Lossless(Run(cfg, INITIAL, trace).value)
  {
    RunKeepsInv(cfg, INITIAL, trace);
    InvLossless(Run(cfg, INITIAL, trace).value);
  }

  // ------------------------------------------------------------- the client's side

  /** Nothing visible in the history from position `lo` up to, not including, `hi`. */
  ghost predicate AllHidden(cfg: Config, history: seq<Event>, lo: int, hi: int) {
    forall i | lo <= i < hi && 0 <= i < |history| :: !Visible(cfg, history[i])
  }

  /** A gap is only ever seen by a client that is blocked, and without one the client has applied
      every visible event the route has handled since its cursor. */
  ghost predicate ClientInLine(cfg: Config, s: State) {
    var last := LastSeq(s.client);
    && (s.client.gap ==> Blocked(cfg, s))
    && match s.session
       case CursorParsed(cursor) => cursor == last
       case Replayed(from, _, _) => last == 0 || from == last
       case Streaming(from, passed, _, _, _) =>
         && (last == 0 || from <= last <= from + |passed|)
         && (!s.client.gap ==> AllHidden(cfg, s.history, Max(from, last), from + |passed|))
         && (last > 0 ==> AllHidden(cfg, s.history, from, s.client.applied[0].eventSeq - 1))
       case _ => true
  }

  /** The client's half of the invariant, for a route that has handled the history from `from` up to
      position `p`. */
  ghost predicate CaughtUp(cfg: Config, history: seq<Event>, from: int, p: int, c: Client) {
    && 0 <= from <= p && (LastSeq(c) == 0 || from <= LastSeq(c) <= p)
    && (c.gap ==> 0 < LastSeq(c) < |history| && !Visible(cfg, history[LastSeq(c)]))
    && (!c.gap ==> AllHidden(cfg, history, Max(from, LastSeq(c)), p))
    && (LastSeq(c) > 0 ==> AllHidden(cfg, history, from, c.applied[0].eventSeq - 1))
  }

  lemma VisibleHandled(cfg: Config, history: seq<Event>, from: int, p: int, c: Client, event: Event)
    requires CaughtUp(cfg, history, from, p, c) && p < |history| && event.eventSeq == p + 1
    requires event == history[p] && Visible(cfg, event)
    requires c.applied != [] ==> LastSeq(c) > 0
    ensures CaughtUp(cfg, history, from, p + 1, ApplyEvent(c, event))
  {
    var d := ApplyEvent(c, event);
    if 0 < LastSeq(c) < p {
      var last := LastSeq(c);
      assert Max(from, last) == last;
      assert !c.gap ==> !Visible(cfg, history[last]);
      assert d.applied == c.applied && d.gap;
    } else {
      assert d.applied == c.applied + [event] && LastSeq(d) == p + 1;
      assert d.applied[0] == if c.applied == [] then event else c.applied[0];
    }
  }

  lemma HiddenHandled(cfg: Config, history: seq<Event>, from: int, p: int, c: Client)
    requires CaughtUp(cfg, history, from, p, c) && p < |history| && !Visible(cfg, history[p])
    ensures CaughtUp(cfg, history, from, p + 1, c)
  {
  }

  lemma HandleInLine(cfg: Config, s: State, event: Event, outbox: seq<Event>, queue: seq<QueueItem>, reading: bool)
    requires Sane(s) && ClientInLine(cfg, s) && s.session.Streaming? && Lossless(s)
    requires Known(event, s.history) && event.eventSeq == s.session.from + |s.session.passed| + 1
    ensures var session := Streaming(s.session.from, s.session.passed + [event], outbox, queue, reading);
            ClientInLine(cfg, Handle(cfg, s, event, session))
  {
    var from, p := s.session.from, s.session.from + |s.session.passed|;
    assert CaughtUp(cfg, s.history, from, p, s.client);
    if Visible(cfg, event) {
      VisibleHandled(cfg, s.history, from, p, s.client, event);
    } else {
      HiddenHandled(cfg, s.history, from, p, s.client);
    }
  }

  /** In line, the next event to be handled is the next one of the history. */
  lemma NextHandled(cfg: Config, s: State)
    requires Inv(s) && Enabled(s, Deliver) && Careful(cfg, s, Deliver)
    ensures Lossless(s)
    ensures s.session.outbox != [] ==> s.session.outbox[0].eventSeq == s.session.from + |s.session.passed| + 1
    ensures s.session.outbox == [] && s.session.queue[0].Live? ==>
              s.session.queue[0].event.eventSeq == s.session.from + |s.session.passed| + 1
  {
    InvLossless(s);
    var Streaming(from, passed, outbox, queue, _) := s.session;
    if outbox != [] {
      assert InStep(s) ==> Pipeline(s)[|passed|] == outbox[0];
      assert (passed + outbox)[|passed|] == outbox[0];
      assert outbox[0] == s.history[from + |passed|];
    } else if queue[0].Live? && InStep(s) {
      assert Pipeline(s)[|passed|] == queue[0].event == s.history[from + |passed|];
    } else if queue[0].Live? && s.drain == Some(0) {
      assert (passed + outbox + LiveEvents(queue))[|passed|] == queue[0].event == s.history[from + |passed|];
    }
  }

  lemma DeliverKeepsClient(cfg: Config, s: State)
    requires Inv(s) && ClientInLine(cfg, s) && Enabled(s, Deliver) && Careful(cfg, s, Deliver)
    ensures ClientInLine(cfg, Apply(cfg, s, Deliver))
  {
    var Streaming(from, passed, outbox, queue, reading) := s.session;
    NextHandled(cfg, s);
    if outbox != [] {
      HandleInLine(cfg, s, outbox[0], outbox[1..], queue, reading);
    } else if queue[0].Live? {
      HandleInLine(cfg, s, queue[0].event, outbox, queue[1..], false);
    }
  }

  lemma AppendKeepsClient(cfg: Config, s: State, nowMs: int, methodName: string, body: Json)
    requires Inv(s) && ClientInLine(cfg, s) && s.drain.None?
    ensures ClientInLine(cfg, Apply(cfg, s, Append(nowMs, methodName, body)))
  {
    InvLossless(s);
    var t := Apply(cfg, s, Append(nowMs, methodName, body));
    assert forall i | 0 <= i < |s.history| :: t.history[i] == s.history[i];
  }

  lemma OpeningKeepsClient(cfg: Config, s: State, e: Step)
    requires Inv(s) && ClientInLine(cfg, s) && Enabled(s, e) && (e.ParseCursor? || e.Replay? || e.Subscribe?)
    ensures ClientInLine(cfg, Apply(cfg, s, e))
  {
  }

  /** Steps that leave the client alone and the connection where it is, or closed. */
  lemma OtherKeepsClient(cfg: Config, s: State, e: Step)
    requires ClientInLine(cfg, s) && Enabled(s, e)
    requires !e.Append? && !e.Deliver? && !e.ParseCursor? && !e.Replay? && !e.Subscribe?
    ensures ClientInLine(cfg, Apply(cfg, s, e))
  {
  }

  lemma StepKeepsClient(cfg: Config, s: State, e: Step)
    requires ValidConfig(cfg) && Inv(s) && ClientInLine(cfg, s) && Enabled(s, e) && Careful(cfg, s, e)
    ensures ClientInLine(cfg, Apply(cfg, s, e))
  {
    if e.Append? {
      AppendKeepsClient(cfg, s, e.nowMs, e.methodName, e.body);
    } else if e.Deliver? {
      DeliverKeepsClient(cfg, s);
    } else if e.ParseCursor? || e.Replay? || e.Subscribe? {
      OpeningKeepsClient(cfg, s, e);
    } else {
      OtherKeepsClient(cfg, s, e);
    }
  }

  lemma {:induction false} RunKeepsClient(cfg: Config, s: State, trace: seq<Step>)
    requires ValidConfig(cfg) && Inv(s) && ClientInLine(cfg, s) && Run(cfg, s, trace).Some?
    ensures ClientInLine(cfg, Run(cfg, s, trace).value)
    decreases |trace|
  {
    if trace != [] {
      StepKeepsClient(cfg, s, trace[0]);
      StepIsSane(cfg, s, trace[0]);
      StepInLine(cfg, s, trace[0]);
      RunKeepsClient(cfg, Apply(cfg, s, trace[0]), trace[1..]);
    }
  }

  /** Over every careful run the client misses nothing the route has handled since its cursor, unless
      a gap is flagged; and a gap is flagged only where an event is hidden from the client, which
      then is stuck for good. */
  lemma CarefulClientsKeepUp(cfg: Config, trace: seq<Step>)
    requires ValidConfig(cfg) && Run(cfg, INITIAL, trace).Some?
    ensures var s := Run(cfg, INITIAL, trace).value;
            && Sane(s) && (s.client.gap ==> Blocked(cfg, s))
            && (s.session.Streaming? && !s.client.gap ==>
                  forall i | 0 <= i < |s.session.passed| && Visible(cfg, s.session.passed[i]) ::
                    s.session.passed[i] in s.client.applied)
  {
    RunKeepsInv(cfg, INITIAL, trace);
    RunKeepsClient(cfg, INITIAL, trace);
    var s := Run(cfg, INITIAL, trace).value;
    if s.session.Streaming? && !s.client.gap {
      InvLossless(s);
      AppliedSince(cfg, s);
    }
  }

  lemma AppliedSince(cfg: Config, s: State)
    requires Inv(s) && Lossless(s) && ClientInLine(cfg, s) && s.session.Streaming? && !s.client.gap
    ensures forall i | 0 <= i < |s.session.passed| && Visible(cfg, s.session.passed[i]) ::
              s.session.passed[i] in s.client.applied
  {
    var Streaming(from, passed, _, _, _) := s.session;
    forall i | 0 <= i < |passed| && Visible(cfg, passed[i])
      ensures passed[i] in s.client.applied
    {
      assert passed[i] == s.history[from + i];
      var first := s.client.applied[0].eventSeq - 1;
      assert s.client.applied[from + i - first] == passed[i];
    }
  }
}
