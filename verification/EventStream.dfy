/** One client following one thread's events: replay, then live delivery, across any number of
    connections. A step is what happens between two points where another thread can get in: where the
    store's lock is taken or released, and inside the drain of a full queue, which holds that lock but
    not the queue's own, so that a reader already past its lookup can take an item meanwhile. */
module EventStream {
  import opened Sequences
  import opened Options
  import opened Text
  import opened Json
  import opened EventJournal

  /** `listens` is the list of methods the client has registered a listener for. */
  datatype Config = Config(capacity: nat, retention: Retention, listens: string -> bool)

  ghost predicate ValidConfig(cfg: Config) { cfg.capacity >= 1 && cfg.retention.maxEvents >= 1 }

  const METHOD_PREFIXES := ["thread/", "turn/", "task/", "item/", "hook/", "rawResponseItem/", "serverRequest/"]

  const EXPLICIT_METHODS :=
    ["error", "warning", "user/message", "user_message", "assistant/message", "assistant_message", "agent/message"]

  /** The methods the route lets through. */
  predicate SessionMethod(methodName: string) {
    var name := Strip(methodName);
    name in EXPLICIT_METHODS || exists i :: 0 <= i < |METHOD_PREFIXES| && METHOD_PREFIXES[i] <= name
  }

  /** Whether an event ever reaches the client's code; the journal keeps every method. */
  predicate Visible(cfg: Config, e: Event) { SessionMethod(e.methodName) && cfg.listens(e.methodName) }

  /** What the client's projection applied since its cursor was last reset, and whether it has seen a
      gap since it last connected. */
  datatype Client = Client(applied: seq<Event>, gap: bool)

  /** `lastEventSeqByThread`: where the client resumes, zero before its first event. */
  function LastSeq(c: Client): nat { if c.applied == [] then 0 else Last(c.applied).eventSeq }

  /** `applySessionEvent`: duplicates are ignored, an event that leaves a gap is refused. */
  function ApplyEvent(c: Client, e: Event): Client {
    if e.eventSeq <= LastSeq(c) then c
    else if LastSeq(c) > 0 && e.eventSeq > LastSeq(c) + 1 then c.(gap := true)
    else c.(applied := c.applied + [e])
  }

  /** What one event does to the projection. A duplicate changes nothing at all, nor does handling an
      event again; an event is applied if it is the next one, or the first one after a reset; any later
      one raises the gap flag, and nothing lowers it. */
  lemma ApplyEventMeaning(c: Client, e: Event)
    ensures e.eventSeq <= LastSeq(c) ==> ApplyEvent(c, e) == c
    ensures ApplyEvent(c, e).applied == c.applied + [e] <==>
              e.eventSeq == LastSeq(c) + 1 || 0 == LastSeq(c) < e.eventSeq
    ensures ApplyEvent(c, e).applied == c.applied || ApplyEvent(c, e).applied == c.applied + [e]
    ensures ApplyEvent(c, e).gap <==> c.gap || 0 < LastSeq(c) < e.eventSeq - 1
    ensures ApplyEvent(ApplyEvent(c, e), e) == ApplyEvent(c, e)
  {
    assert |c.applied + [e]| == |c.applied| + 1;
  }

  /** The connection, by how far `open_event_stream` has come. */
  datatype Session =
    | Closed
    | CursorParsed(cursor: nat)
    // the replay starts after number `from` and was read when `upTo` was the last number
    | Replayed(from: int, replay: seq<Event>, upTo: nat)
    // `passed` is what the route has handled so far, sent or filtered out; `reading` says that the
    // route has looked its subscription up and waits for the queue
    | Streaming(from: int, passed: seq<Event>, outbox: seq<Event>, queue: seq<QueueItem>, reading: bool)
    // the cursor was refused: only a snapshot helps
    | MustResync

  datatype State = State(
    history: seq<Event>,   // every event ever journaled
    journal: seq<Event>,
    sequence: nat,
    inFlight: seq<Event>,  // journaled, not yet fanned out, in journal order
    drain: Option<nat>,    // a full queue is being drained under the lock: items dropped so far
    session: Session,
    client: Client)

  const INITIAL := State([], [], 0, [], None, Closed, Client([], false))

  datatype Step =
    | Append(nowMs: int, methodName: string, body: Json)
    | FanOut(k: nat)        // an appender takes the lock again
    | DropOne | PutControl  // the drain of a full queue
    | ObserverFails(k: nat) // its write-through observer raised: that event is never fanned out
    | ParseCursor | Replay | Subscribe
    | BeginRead             // the route looks its subscription up
    | ReadTimesOut
    | Deliver               // the route handles the next event
    | Disconnect            // by the client after an error or a gap, or by the network
    | ResetCursor           // the client's answer to a repeated gap: close, and start over
    | Restart               // the process comes back on the same database

  function Without<T>(xs: seq<T>, k: nat): seq<T>
    requires k < |xs|
  {
    xs[..k] + xs[k + 1..]
  }

  predicate Enabled(s: State, e: Step) {
    match e
    case Append(_, _, _) => s.drain.None?
    case FanOut(k) => s.drain.None? && k < |s.inFlight|
    case DropOne => s.drain.Some? && s.session.Streaming? && s.session.queue != []
    case PutControl => s.drain.Some? && (s.session.Streaming? ==> s.session.queue == [])
    case ObserverFails(k) => k < |s.inFlight|
    case ParseCursor => s.session.Closed?
    case Replay => s.drain.None? && s.session.CursorParsed?
    case Subscribe => s.drain.None? && s.session.Replayed?
    case BeginRead => s.drain.None? && s.session.Streaming? && s.session.outbox == [] && !s.session.reading
    case ReadTimesOut => s.session.Streaming? && s.session.reading && s.session.queue == []
    case Deliver =>
      s.session.Streaming? && (s.session.outbox != [] || (s.session.reading && s.session.queue != []))
    case Disconnect => !s.session.MustResync?
    case ResetCursor => s.client.gap && !s.session.MustResync?
    case Restart => true
  }

  function Handle(cfg: Config, s: State, event: Event, session: Session): State {
    s.(session := session, client := if Visible(cfg, event) then ApplyEvent(s.client, event) else s.client)
  }

  function Delivered(cfg: Config, s: State): State
    requires Enabled(s, Deliver)
  {
    var Streaming(from, passed, outbox, queue, reading) := s.session;
    if outbox != []
    then Handle(cfg, s, outbox[0], Streaming(from, passed + [outbox[0]], outbox[1..], queue, reading))
    else match queue[0]
         case Live(event) => Handle(cfg, s, event, Streaming(from, passed + [event], outbox, queue[1..], false))
         case Lagged(_) => s.(session := Closed)
  }

  /** A subscriber with room gets the event; a full queue starts to be drained. */
  function FannedOut(cfg: Config, s: State, k: nat): State
    requires Enabled(s, FanOut(k))
  {
    var t := s.(inFlight := Without(s.inFlight, k));
    if !s.session.Streaming? then t
    else if |s.session.queue| < cfg.capacity
    then t.(session := s.session.(queue := s.session.queue + [Live(s.inFlight[k])]))
    else t.(drain := Some(0))
  }

  function Apply(cfg: Config, s: State, e: Step): State
    requires Enabled(s, e)
  {
    match e
    case Append(nowMs, methodName, body) =>
      var event := Event(s.sequence + 1, nowMs, methodName, body);
      s.(history := s.history + [event],
         journal := Pruned(s.journal + [event], nowMs, cfg.retention),
         sequence := event.eventSeq,
         inFlight := s.inFlight + [event])
    case FanOut(k) => FannedOut(cfg, s, k)
    case DropOne =>
      s.(drain := Some(s.drain.value + 1), session := s.session.(queue := s.session.queue[1..]))
    case PutControl =>
      s.(drain := None,
         session := if s.session.Streaming? then s.session.(queue := [Lagged(s.drain.value)]) else s.session)
    case ObserverFails(k) => s.(inFlight := Without(s.inFlight, k))
    case ParseCursor =>
      var cursor := LastSeq(s.client);
      s.(session := if Available(s.journal, cursor) then CursorParsed(cursor) else MustResync,
         client := s.client.(gap := false))
    case Replay =>
      var replay := After(s.journal, s.session.cursor);
      var from := if s.session.cursor == 0 then |s.history| - |replay| else s.session.cursor;
      s.(session := Replayed(from, replay, |s.history|))
    case Subscribe => s.(session := Streaming(s.session.from, [], s.session.replay, [], false))
    case BeginRead => s.(session := s.session.(reading := true))
    case ReadTimesOut => s.(session := s.session.(reading := false))
    case Deliver => Delivered(cfg, s)
    case Disconnect => s.(session := Closed)
    case ResetCursor => s.(session := Closed, client := Client([], false))
    case Restart =>
      s.(inFlight := [], drain := None, sequence := RecoveredSequence(s.journal),
         session := if s.session.MustResync? then MustResync else Closed)
  }

  /** The state after a run, if every step of it was enabled. */
  function Exec(cfg: Config, s: State, trace: seq<Step>): Option<State>
    decreases |trace|
  {
    if trace == [] then Some(s)
    else if Enabled(s, trace[0]) then Exec(cfg, Apply(cfg, s, trace[0]), trace[1..])
    else None
  }

  // ------------------------------------------------- what holds of every run at all

  ghost predicate StoreInv(s: State) {
    Numbered(s.history) && Retained(s.journal, s.history) && s.sequence == |s.history|
  }

  ghost predicate Known(e: Event, history: seq<Event>) {
    1 <= e.eventSeq <= |history| && history[e.eventSeq - 1] == e
  }

  ghost predicate AllKnown(events: seq<Event>, history: seq<Event>) {
    forall i | 0 <= i < |events| :: Known(events[i], history)
  }

  ghost predicate QueueKnown(queue: seq<QueueItem>, history: seq<Event>) {
    forall i | 0 <= i < |queue| :: queue[i].Live? ==> Known(queue[i].event, history)
  }

  /** The events lie next to each other in the history, in order, each once. */
  ghost predicate Stretch(events: seq<Event>, history: seq<Event>) {
    forall i | 0 <= i < |events| ::
      Known(events[i], history) && events[i].eventSeq == events[0].eventSeq + i
  }

  ghost predicate SessionKnown(s: State) {
    match s.session
    case Replayed(_, replay, _) => AllKnown(replay, s.history)
    case Streaming(_, _, outbox, queue, _) => AllKnown(outbox, s.history) && QueueKnown(queue, s.history)
    case _ => true
  }

  ghost predicate Sane(s: State) {
    && StoreInv(s) && AllKnown(s.inFlight, s.history) && SessionKnown(s) && Stretch(s.client.applied, s.history)
  }

  lemma StepKeepsStore(cfg: Config, s: State, e: Step)
    requires ValidConfig(cfg) && StoreInv(s) && Enabled(s, e)
    ensures StoreInv(Apply(cfg, s, e))
  {
    match e
    case Append(nowMs, methodName, body) =>
      AppendRetains(s.journal, s.history, Event(s.sequence + 1, nowMs, methodName, body), nowMs, cfg.retention);
    case Restart => RecoveredSequenceIsHead(s.journal, s.history);
    case _ =>
  }

  lemma {:induction false} AfterKnown(journal: seq<Event>, cursor: nat, history: seq<Event>)
    requires AllKnown(journal, history)
    ensures AllKnown(After(journal, cursor), history)
  {
    if journal != [] {
      assert forall i | 0 <= i < |journal[1..]| :: journal[1..][i] == journal[i + 1];
      AfterKnown(journal[1..], cursor, history);
    }
  }

  lemma JournalKnown(s: State)
    requires StoreInv(s)
    ensures AllKnown(s.journal, s.history)
  {
    var d := |s.history| - |s.journal|;
    assert forall i | 0 <= i < |s.journal| :: s.journal[i] == s.history[d + i];
  }

  /** The projection keeps a stretch of the history, whatever event of it arrives next. */
  lemma ApplyKeepsStretch(c: Client, e: Event, history: seq<Event>)
    requires Stretch(c.applied, history) && Known(e, history)
    ensures Stretch(ApplyEvent(c, e).applied, history)
  {
  }

  lemma DeliverIsSane(cfg: Config, s: State)
    requires Sane(s) && Enabled(s, Deliver)
    ensures Sane(Apply(cfg, s, Deliver))
  {
    var Streaming(_, _, outbox, queue, _) := s.session;
    if outbox != [] {
      ApplyKeepsStretch(s.client, outbox[0], s.history);
    } else if queue[0].Live? {
      ApplyKeepsStretch(s.client, queue[0].event, s.history);
    }
  }

  lemma StepIsSane(cfg: Config, s: State, e: Step)
    requires ValidConfig(cfg) && Sane(s) && Enabled(s, e)
    ensures Sane(Apply(cfg, s, e))
  {
    StepKeepsStore(cfg, s, e);
    match e
    case Replay =>
      JournalKnown(s);
      AfterKnown(s.journal, s.session.cursor, s.history);
    case Deliver => DeliverIsSane(cfg, s);
    case _ =>
  }

  lemma {:induction false} ExecIsSane(cfg: Config, s: State, trace: seq<Step>)
    requires ValidConfig(cfg) && Sane(s) && Exec(cfg, s, trace).Some?
    ensures Sane(Exec(cfg, s, trace).value)
    decreases |trace|
  {
    if trace != [] {
      StepIsSane(cfg, s, trace[0]);
      ExecIsSane(cfg, Apply(cfg, s, trace[0]), trace[1..]);
    }
  }

  /** Over every run, whatever is lost, repeated or reordered on the way: the events the client has
      applied lie next to each other in the history, in order, each once. */
  lemma AppliedIsAlwaysAStretch(cfg: Config, trace: seq<Step>)
    requires ValidConfig(cfg) && Exec(cfg, INITIAL, trace).Some?
    ensures var s := Exec(cfg, INITIAL, trace).value; Stretch(s.client.applied, s.history)
  {
    ExecIsSane(cfg, INITIAL, trace);
  }

  /** The event after the client's last one never reaches it. */
  ghost predicate Blocked(cfg: Config, s: State) {
    var last := LastSeq(s.client);
    0 < last < |s.history| && !Visible(cfg, s.history[last])
  }

  lemma StepStaysBlocked(cfg: Config, s: State, e: Step)
    requires ValidConfig(cfg) && Sane(s) && Blocked(cfg, s) && Enabled(s, e) && !e.ResetCursor?
    ensures Blocked(cfg, Apply(cfg, s, e)) && Apply(cfg, s, e).client.applied == s.client.applied
  {
  }

  ghost predicate NoReset(trace: seq<Step>) { forall i | 0 <= i < |trace| :: !trace[i].ResetCursor? }

  /** Once the next event is one the route or the client's listeners leave out, the client is stuck:
      until it resets its cursor it never applies another event, over every run and through every
      reconnection. */
  lemma {:induction false} HiddenEventBlocks(cfg: Config, s: State, trace: seq<Step>)
    requires ValidConfig(cfg) && Sane(s) && Blocked(cfg, s) && NoReset(trace) && Exec(cfg, s, trace).Some?
    ensures Exec(cfg, s, trace).value.client.applied == s.client.applied
    decreases |trace|
  {
    if trace != [] {
      StepIsSane(cfg, s, trace[0]);
      StepStaysBlocked(cfg, s, trace[0]);
      assert forall i | 0 <= i < |trace[1..]| :: trace[1..][i] == trace[i + 1];
      HiddenEventBlocks(cfg, Apply(cfg, s, trace[0]), trace[1..]);
    }
  }

  // ------------------------------------------------------------ resets do not help

  /** How many events retention has dropped. */
  function DroppedCount(s: State): int { |s.history| - |s.journal| }

  /** A hidden event at position `h`, and a visible one before it, at `v`, that is still retained. */
  ghost predicate Barrier(cfg: Config, s: State, v: nat, h: nat) {
    && DroppedCount(s) <= v < h < |s.history|
    && Visible(cfg, s.history[v]) && !Visible(cfg, s.history[h])
  }

  /** The replay starts no later than the visible event and reaches past it. */
  ghost predicate CoversFrom(s: State, replay: seq<Event>, v: nat) {
    exists lo, hi :: 0 <= lo <= v < hi <= |s.history| && replay == s.history[lo..hi]
  }

  /** The client is before the barrier: its last event is not past it, or it starts over from a replay
      that holds the visible event. */
  ghost predicate Before(s: State, v: nat, h: nat) {
    if s.client.applied != [] then 0 < LastSeq(s.client) <= h
    else
      match s.session
      case CursorParsed(cursor) => cursor == 0
      case Replayed(_, replay, _) => CoversFrom(s, replay, v)
      case Streaming(_, _, outbox, _, _) => CoversFrom(s, outbox, v)
      case _ => true
  }

  lemma DroppedGrows(cfg: Config, s: State, e: Step)
    requires ValidConfig(cfg) && Enabled(s, e)
    ensures DroppedCount(s) <= DroppedCount(Apply(cfg, s, e)) && s.history <= Apply(cfg, s, e).history
  {
  }

  lemma CoverSurvives(s: State, t: State, replay: seq<Event>, v: nat)
    requires s.history <= t.history && CoversFrom(s, replay, v)
    ensures CoversFrom(t, replay, v)
  {
    var lo, hi :| 0 <= lo <= v < hi <= |s.history| && replay == s.history[lo..hi];
    assert replay == t.history[lo..hi];
  }

  /** A client that starts over handles the replay in order, and so applies an event before the
      barrier first. */
  lemma FirstOfReplay(cfg: Config, s: State, v: nat, h: nat)
    requires Sane(s) && Barrier(cfg, s, v, h) && Before(s, v, h) && s.client.applied == [] && Enabled(s, Deliver)
    ensures Before(Apply(cfg, s, Deliver), v, h)
  {
    var outbox := s.session.outbox;
    var lo, hi :| 0 <= lo <= v < hi <= |s.history| && outbox == s.history[lo..hi];
    assert outbox[0] == s.history[lo] && outbox[1..] == s.history[lo + 1..hi];
  }

  /** A client that has a last event only ever applies the next one. */
  lemma NextApplied(cfg: Config, c: Client, e: Event, history: seq<Event>, h: nat)
    requires Known(e, history) && Visible(cfg, e) && h < |history| && !Visible(cfg, history[h])
    requires c.applied != [] && 0 < LastSeq(c) <= h
    ensures var d := ApplyEvent(c, e); d.applied != [] && 0 < LastSeq(d) <= h
  {
  }

  lemma NextStaysBefore(cfg: Config, s: State, v: nat, h: nat)
    requires Sane(s) && Barrier(cfg, s, v, h) && Before(s, v, h) && s.client.applied != [] && Enabled(s, Deliver)
    ensures Before(Apply(cfg, s, Deliver), v, h)
  {
    var Streaming(_, _, outbox, queue, _) := s.session;
    if outbox != [] {
      if Visible(cfg, outbox[0]) { NextApplied(cfg, s.client, outbox[0], s.history, h); }
    } else if queue[0].Live? && Visible(cfg, queue[0].event) {
      NextApplied(cfg, s.client, queue[0].event, s.history, h);
    }
  }

  lemma ReplayCovers(cfg: Config, s: State, v: nat, h: nat)
    requires Sane(s) && Barrier(cfg, s, v, h) && Before(s, v, h) && Enabled(s, Replay)
    ensures Before(Apply(cfg, s, Replay), v, h)
  {
    if s.client.applied == [] {
      JournalKnown(s);
      AfterZero(s.journal);
      assert s.journal == s.history[DroppedCount(s)..|s.history|];
    }
  }

  lemma StepStaysBefore(cfg: Config, s: State, e: Step, v: nat, h: nat)
    requires ValidConfig(cfg) && Sane(s) && Barrier(cfg, s, v, h) && Before(s, v, h) && Enabled(s, e)
    ensures Before(Apply(cfg, s, e), v, h)
  {
    match e
    case Deliver =>
      if s.client.applied == [] { FirstOfReplay(cfg, s, v, h); } else { NextStaysBefore(cfg, s, v, h); }
    case Replay => ReplayCovers(cfg, s, v, h);
    case Append(_, _, _) =>
      if s.session.Replayed? && CoversFrom(s, s.session.replay, v) {
        CoverSurvives(s, Apply(cfg, s, e), s.session.replay, v);
      }
      if s.session.Streaming? && CoversFrom(s, s.session.outbox, v) {
        CoverSurvives(s, Apply(cfg, s, e), s.session.outbox, v);
      }
    case _ =>
  }

  lemma {:induction false} ExecKeepsHistory(cfg: Config, s: State, trace: seq<Step>)
    requires ValidConfig(cfg) && Exec(cfg, s, trace).Some?
    ensures var t := Exec(cfg, s, trace).value; DroppedCount(s) <= DroppedCount(t) && s.history <= t.history
    decreases |trace|
  {
    if trace != [] {
      DroppedGrows(cfg, s, trace[0]);
      ExecKeepsHistory(cfg, Apply(cfg, s, trace[0]), trace[1..]);
    }
  }

  /** Over every run, resets included: as long as the hidden event and some visible one before it are
      retained, a client that is before the hidden event never applies anything past it. */
  lemma {:induction false} BarrierHolds(cfg: Config, s: State, trace: seq<Step>, v: nat, h: nat)
    requires ValidConfig(cfg) && Sane(s) && Barrier(cfg, s, v, h) && Before(s, v, h)
    requires Exec(cfg, s, trace).Some? && DroppedCount(Exec(cfg, s, trace).value) <= v
    ensures LastSeq(Exec(cfg, s, trace).value.client) <= h
    decreases |trace|
  {
    if trace != [] {
      var t := Apply(cfg, s, trace[0]);
      StepIsSane(cfg, s, trace[0]);
      StepStaysBefore(cfg, s, trace[0], v, h);
      DroppedGrows(cfg, s, trace[0]);
      ExecKeepsHistory(cfg, t, trace[1..]);
      BarrierHolds(cfg, t, trace[1..], v, h);
    }
  }
}
