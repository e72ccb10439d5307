/** The session core's event journal: numbering, retention, replay cursors and subscriber queues. */
module EventJournal {
  import opened Sequences
  import opened Options
  import opened Text
  import opened Json
  import opened Numbers
  import opened Cursors

  /** A journaled event: its number within the thread, its time, its method, and whatever else it
      carries. */
  datatype Event = Event(eventSeq: nat, occurredAtMs: int, methodName: string, body: Json)

  /** Both floors of the retention rule. The constructor of the store clamps them. */
  datatype Retention = Retention(maxEvents: nat, windowMs: int)

  // ------------------------------------------------------------------ retention

  /** Older than the window; a missing (zero) time counts as now. */
  predicate IsOld(e: Event, nowMs: int, windowMs: int) {
    (if e.occurredAtMs == 0 then nowMs else e.occurredAtMs) < nowMs - windowMs
  }

  /** How many events at the front are old, without interruption. */
  function OldPrefix(events: seq<Event>, nowMs: int, windowMs: int): (n: nat)
    ensures n <= |events|
  {
    if events == [] || !IsOld(events[0], nowMs, windowMs) then 0 else 1 + OldPrefix(events[1..], nowMs, windowMs)
  }

  function Pruned(events: seq<Event>, nowMs: int, r: Retention): seq<Event> {
    if |events| <= r.maxEvents then events
    else events[OldPrefix(events[..|events| - r.maxEvents], nowMs, r.windowMs)..]
  }

  lemma {:induction false} OldPrefixMeaning(events: seq<Event>, nowMs: int, windowMs: int)
    ensures var n := OldPrefix(events, nowMs, windowMs);
            && (forall i | 0 <= i < n :: IsOld(events[i], nowMs, windowMs))
            && (n < |events| ==> !IsOld(events[n], nowMs, windowMs))
  {
    if events != [] && IsOld(events[0], nowMs, windowMs) {
      OldPrefixMeaning(events[1..], nowMs, windowMs);
      assert forall i | 1 <= i < |events| :: events[i] == events[1..][i - 1];
    }
  }

  /** Both floors hold: what is dropped is a prefix of events that happened more than the window ago
      (one without a time never did), it leaves at least `maxEvents` behind, and no longer prefix of
      that kind exists. */
  lemma TrimKeepsBothFloors(events: seq<Event>, nowMs: int, r: Retention) returns (dropped: nat)
    ensures dropped <= |events| && Pruned(events, nowMs, r) == events[dropped..]
    ensures dropped == 0 || |events| - dropped >= r.maxEvents
    ensures forall i | 0 <= i < dropped ::
              var at := events[i].occurredAtMs; if at == 0 then r.windowMs < 0 else at + r.windowMs < nowMs
    ensures |events| - dropped > r.maxEvents ==>
              var at := events[dropped].occurredAtMs; if at == 0 then r.windowMs >= 0 else at + r.windowMs >= nowMs
  {
    if |events| <= r.maxEvents {
      dropped := 0;
    } else {
      var candidates := events[..|events| - r.maxEvents];
      dropped := OldPrefix(candidates, nowMs, r.windowMs);
      OldPrefixMeaning(candidates, nowMs, r.windowMs);
      assert forall i | 0 <= i < |candidates| :: candidates[i] == events[i];
    }
  }

  // -------------------------------------------------------------------- cursors

  /** Whether the event after `cursor` is still there; zero asks for whatever is retained. */
  predicate Available(journal: seq<Event>, cursor: nat) {
    journal == [] || cursor == 0 || cursor >= journal[0].eventSeq - 1
  }

  datatype CursorCheck = Cursor(value: nat) | CursorInvalid | CursorExpired

  function CheckCursor(journal: seq<Event>, cursor: Option<string>): CursorCheck {
    match ParseText(cursor)
    case Missing => Cursor(0)
    case Malformed => CursorInvalid
    case Number(value) =>
      if value < 0 then CursorInvalid
      else if Available(journal, value) then Cursor(value)
      else CursorExpired
  }

  /** The events a replay returns. */
  function After(journal: seq<Event>, cursor: nat): seq<Event> {
    if journal == [] then []
    else (if journal[0].eventSeq > cursor then [journal[0]] else []) + After(journal[1..], cursor)
  }

  /** Every event ever journaled, in order, is numbered from one without gaps. */
  ghost predicate Numbered(history: seq<Event>) {
    forall i | 0 <= i < |history| :: history[i].eventSeq == i + 1
  }

  /** The journal is what retention left of the history: its tail, never all of it gone. */
  ghost predicate Retained(journal: seq<Event>, history: seq<Event>) {
    && |journal| <= |history| && journal == history[|history| - |journal|..]
    && (journal == [] ==> history == [])
  }

  lemma {:induction false} AfterTail(history: seq<Event>, d: nat, cursor: nat)
    requires Numbered(history) && d <= |history|
    ensures var from := if cursor < d then d else if cursor < |history| then cursor else |history|;
            After(history[d..], cursor) == history[from..]
    decreases |history| - d
  {
    if d < |history| {
      assert history[d..][1..] == history[d + 1..];
      AfterTail(history, d + 1, cursor);
      assert cursor <= d ==> [history[d]] + history[d + 1..] == history[d..];
    }
  }

  /** The replay at this cursor is what the client asked for: every event after it. */
  ghost predicate Resumes(journal: seq<Event>, history: seq<Event>, cursor: nat) {
    cursor <= |history| && After(journal, cursor) == history[cursor..]
  }

  /** For every cursor: whoever can resume is accepted, and what else is accepted, with a replay
      that silently falls short, is exactly cursor zero once events were dropped and any cursor
      past the last event. */
  lemma AcceptedCursors(journal: seq<Event>, history: seq<Event>, cursor: nat)
    requires Numbered(history) && Retained(journal, history)
    ensures Resumes(journal, history, cursor) ==> Available(journal, cursor)
    ensures Available(journal, cursor) && !Resumes(journal, history, cursor)
       <==> (cursor == 0 && |journal| < |history|) || cursor > |history|
    ensures cursor == 0 ==> After(journal, cursor) == journal
    ensures cursor > |history| ==> After(journal, cursor) == []
  {
    var d := |history| - |journal|;
    AfterTail(history, d, cursor);
    if journal != [] { assert journal[0] == history[d]; }
  }

  /** What the check decides, for every text a client may send: no cursor and a blank one ask for all
      that is retained, what is no number and what is negative is invalid, and a number is expired if
      and only if the event after it is gone; zero never is. */
  lemma CursorOutcome(journal: seq<Event>, history: seq<Event>, cursor: Option<string>)
    requires Numbered(history) && Retained(journal, history)
    ensures CheckCursor(journal, cursor)
         == match ParseText(cursor)
            case Missing => Cursor(0)
            case Malformed => CursorInvalid
            case Number(n) =>
              if n < 0 then CursorInvalid
              else if 0 < n < |history| - |journal| then CursorExpired
              else Cursor(n)
  {
    if journal != [] { assert journal[0] == history[|history| - |journal|]; }
  }

  /** The identifier of an event sent back: it is refused exactly when the event after it is gone, and
      what is accepted resumes right after it or at the end. */
  lemma EventIdChecked(journal: seq<Event>, history: seq<Event>, threadId: string, n: nat)
    requires Numbered(history) && Retained(journal, history)
    ensures CheckCursor(journal, Some(EventId(threadId, n)))
         == if 0 < n < |history| - |journal| then CursorExpired else Cursor(n)
    ensures 0 < n <= |history| && CheckCursor(journal, Some(EventId(threadId, n))).Cursor? ==>
              After(journal, n) == history[n..]
    ensures n > 0 ==> CheckCursor(journal, Some("-" + Decimal(n))) == CursorInvalid
    ensures CheckCursor(journal, None) == CheckCursor(journal, Some("")) == Cursor(0)
  {
    EventIdReadsBack(threadId, n);
    AcceptedCursors(journal, history, n);
    CursorOutcome(journal, history, Some(EventId(threadId, n)));
    if n > 0 { SignedReadsBack(n); }
  }

  /** A cursor whose last part is no number is invalid, whatever the journal holds. */
  lemma MalformedRejected(journal: seq<Event>, threadId: string, part: string)
    requires part != "" && Trimmed(part) && ':' !in part && ParseInt(part).None?
    ensures CheckCursor(journal, Some(threadId + ":" + part)) == CursorInvalid
  {
    IdStripped(threadId, part);
  }

  /** Both silent cases on one journal: event 1 was dropped, event 2 is the last. */
  lemma SilentFallbacks(first: Event, second: Event)
    requires first.eventSeq == 1 && second.eventSeq == 2
    ensures Numbered([first, second]) && Retained([second], [first, second])
    ensures CheckCursor([second], Some("0")) == Cursor(0) && After([second], 0) == [second]
    ensures CheckCursor([second], Some("3")) == Cursor(3) && After([second], 3) == []
  {
    AcceptedCursors([second], [first, second], 0);
    AcceptedCursors([second], [first, second], 3);
    assert "0" == Decimal(0) && "3" == Decimal(3);
    NumberReadsBack(0);
    NumberReadsBack(3);
  }

  /** Cursor zero replays all that is retained. */
  lemma {:induction false} AfterZero(journal: seq<Event>)
    requires forall i | 0 <= i < |journal| :: journal[i].eventSeq > 0
    ensures After(journal, 0) == journal
  {
    if journal != [] {
      AfterZero(journal[1..]);
      assert journal == [journal[0]] + journal[1..];
    }
  }

  /** Appending keeps the numbering and the tail, whatever the clock says. */
  lemma AppendRetains(journal: seq<Event>, history: seq<Event>, e: Event, nowMs: int, r: Retention)
    requires Numbered(history) && Retained(journal, history) && r.maxEvents >= 1
    requires e.eventSeq == |history| + 1
    ensures Numbered(history + [e]) && Retained(Pruned(journal + [e], nowMs, r), history + [e])
  {
    var dropped := TrimKeepsBothFloors(journal + [e], nowMs, r);
    assert journal + [e] == (history + [e])[|history| - |journal|..];
  }

  /** What a restarted store takes for the last number: the largest one in its journal. */
  function RecoveredSequence(journal: seq<Event>): nat { if journal == [] then 0 else Last(journal).eventSeq }

  /** Numbering survives a restart, because retention never empties a journal. */
  lemma RecoveredSequenceIsHead(journal: seq<Event>, history: seq<Event>)
    requires Numbered(history) && Retained(journal, history)
    ensures RecoveredSequence(journal) == |history|
  {
  }

  // ---------------------------------------------------------- subscriber queues

  datatype QueueItem = Live(event: Event) | Lagged(skipped: nat)

  /** `queue.put_nowait`, and what happens when the queue is full: it is drained item by item and then
      holds one control item with the number of items dropped. The drain holds the store's lock, but
      a reader that looked its subscription up before may take one item meanwhile; `overlap` says
      which of the removals is that reader's, if any. */
  function Offered(queue: seq<QueueItem>, capacity: nat, event: Event, overlap: Option<nat>): seq<QueueItem> {
    if |queue| < capacity then queue + [Live(event)]
    else [Lagged(|queue| - if TakenDuring(queue, capacity, overlap).Some? then 1 else 0)]
  }

  /** The item such a reader gets. */
  function TakenDuring(queue: seq<QueueItem>, capacity: nat, overlap: Option<nat>): Option<QueueItem> {
    if |queue| >= capacity && overlap.Some? && overlap.value < |queue| then Some(queue[overlap.value]) else None
  }

  /** What reading a subscription can give. */
  datatype Read = Gone | TimedOut | Got(item: QueueItem)

  datatype Subscriber = Subscriber(threadId: string, events: seq<QueueItem>)

  function Find<T>(entries: map<nat, T>, id: nat): Option<T> {
    if id in entries then Some(entries[id]) else None
  }

  const DAY_MS := 24 * 60 * 60 * 1000

  /** The store: journals and numbering by thread, and the open subscriptions. */
  class RuntimeStore {
    const capacity: nat
    const retention: Retention
    var sequences: map<string, nat>
    var journals: map<string, seq<Event>>
    var subscribers: map<nat, Subscriber>
    var nextSubscriber: nat

    function SequenceOf(threadId: string): nat
      reads this
    {
      if threadId in sequences then sequences[threadId] else 0
    }

    function JournalOf(threadId: string): seq<Event>
      reads this
    {
      if threadId in journals then journals[threadId] else []
    }

    ghost predicate Valid()
      reads this
    {
      capacity >= 1 && retention.maxEvents >= 1 && forall id | id in subscribers :: id < nextSubscriber
    }

    constructor (queueCapacity: int, retentionMaxEvents: int, retentionDays: int)
      ensures Valid() && subscribers == map[]
      ensures capacity == Max(1, queueCapacity)
      ensures retention == Retention(Max(1, retentionMaxEvents), Max(1, retentionDays) * DAY_MS)
      ensures forall t :: SequenceOf(t) == 0 && JournalOf(t) == []
    {
      capacity := Max(1, queueCapacity);
      retention := Retention(Max(1, retentionMaxEvents), Max(1, retentionDays) * DAY_MS);
      sequences, journals, subscribers, nextSubscriber := map[], map[], map[], 0;
    }

    method TrimJournal(threadId: string, nowMs: int)
      requires Valid()
      modifies this`journals
      ensures JournalOf(threadId) == Pruned(old(JournalOf(threadId)), nowMs, retention)
      ensures forall t | t != threadId :: JournalOf(t) == old(JournalOf(t))
    {
      var events := JournalOf(threadId);
      if |events| <= retention.maxEvents { return; }
      var candidates := events[..|events| - retention.maxEvents];
      var dropCount := 0;
      assert candidates[0..] == candidates;
      while dropCount < |candidates| && IsOld(candidates[dropCount], nowMs, retention.windowMs)
        invariant dropCount <= |candidates|
        invariant OldPrefix(candidates, nowMs, retention.windowMs)
               == dropCount + OldPrefix(candidates[dropCount..], nowMs, retention.windowMs)
      {
        assert candidates[dropCount..][1..] == candidates[dropCount + 1..];
        dropCount := dropCount + 1;
      }
      if dropCount > 0 {
        journals := journals[threadId := events[dropCount..]];
      }
    }

    method NextSequence(threadId: string) returns (nextSeq: nat)
      modifies this`sequences
      ensures nextSeq == old(SequenceOf(threadId)) + 1 == SequenceOf(threadId)
      ensures forall t | t != threadId :: SequenceOf(t) == old(SequenceOf(t))
    {
      nextSeq := SequenceOf(threadId) + 1;
      sequences := sequences[threadId := nextSeq];
    }

    method AddToJournal(threadId: string, event: Event)
      requires Valid()
      modifies this`journals
      ensures JournalOf(threadId) == Pruned(old(JournalOf(threadId)) + [event], event.occurredAtMs, retention)
      ensures forall t | t != threadId :: JournalOf(t) == old(JournalOf(t))
    {
      journals := journals[threadId := JournalOf(threadId) + [event]];
      TrimJournal(threadId, event.occurredAtMs);
    }

    /** `append_event` up to the release of the lock: the event is numbered and durable, but no
        subscriber has it yet. */
    method JournalEvent(threadId: string, nowMs: int, methodName: string, body: Json) returns (event: Event)
      requires Valid()
      modifies this`sequences, this`journals
      ensures event == Event(old(SequenceOf(threadId)) + 1, nowMs, methodName, body)
      ensures SequenceOf(threadId) == event.eventSeq
      ensures JournalOf(threadId) == Pruned(old(JournalOf(threadId)) + [event], nowMs, retention)
      ensures forall t | t != threadId :: JournalOf(t) == old(JournalOf(t)) && SequenceOf(t) == old(SequenceOf(t))
    {
      var nextSeq := NextSequence(threadId);
      event := Event(nextSeq, nowMs, methodName, body);
      AddToJournal(threadId, event);
    }

    /** The second half of `append_event`, after the observers: every subscriber of the thread is
        offered the event, nobody else is touched. `taken` is what overlapping readers got. */
    method FanoutEvent(threadId: string, event: Event, overlaps: map<nat, nat>) returns (taken: map<nat, QueueItem>)
      requires Valid()
      modifies this`subscribers
      ensures Valid() && subscribers.Keys == old(subscribers.Keys)
      ensures forall id | id in subscribers ::
                var before := old(subscribers)[id];
                subscribers[id] == if before.threadId == threadId
                                   then before.(events := Offered(before.events, capacity, event, Find(overlaps, id)))
                                   else before
      ensures forall id :: Find(taken, id) ==
                if id in old(subscribers) && old(subscribers)[id].threadId == threadId
                then TakenDuring(old(subscribers)[id].events, capacity, Find(overlaps, id)) else None
    {
      var todo := subscribers.Keys;
      taken := map[];
      while todo != {}
        invariant todo <= subscribers.Keys == old(subscribers.Keys)
        invariant forall id | id in todo :: subscribers[id] == old(subscribers)[id] && id !in taken
        invariant forall id | id in subscribers && id !in todo ::
                    var before := old(subscribers)[id];
                    subscribers[id] ==
                    if before.threadId == threadId
                    then before.(events := Offered(before.events, capacity, event, Find(overlaps, id)))
                    else before
        invariant forall id | id !in todo :: Find(taken, id) ==
                    if id in old(subscribers) && old(subscribers)[id].threadId == threadId
                    then TakenDuring(old(subscribers)[id].events, capacity, Find(overlaps, id)) else None
        decreases |todo|
      {
        var id :| id in todo;
        todo := todo - {id};
        if subscribers[id].threadId == threadId {
          var queue, item := Put(subscribers[id].events, event, Find(overlaps, id));
          subscribers := subscribers[id := subscribers[id].(events := queue)];
          if item.Some? { taken := taken[id := item.value]; }
        }
      }
    }

    method Put(events: seq<QueueItem>, event: Event, overlap: Option<nat>)
      returns (queue: seq<QueueItem>, taken: Option<QueueItem>)
      ensures queue == Offered(events, capacity, event, overlap)
      ensures taken == TakenDuring(events, capacity, overlap)
    {
      queue, taken := events, None;
      if |queue| < capacity {
        return queue + [Live(event)], None;
      }
      var skipped := 0;
      for i := 0 to |events|
        invariant queue == events[i..]
        invariant skipped == i - if taken.Some? then 1 else 0
        invariant taken == if overlap.Some? && overlap.value < i then Some(events[overlap.value]) else None
      {
        if overlap == Some(i) {
          taken := Some(queue[0]);
        } else {
          skipped := skipped + 1;
        }
        queue := queue[1..];
      }
      queue := [Lagged(skipped)];
    }

    method ParseCursor(threadId: string, cursor: Option<string>) returns (r: CursorCheck)
      ensures r == CheckCursor(JournalOf(threadId), cursor)
    {
      if cursor.None? || Strip(cursor.value) == "" { return Cursor(0); }
      var candidate := Strip(cursor.value);
      candidate := AfterColon(candidate);
      var number := ParseInt(candidate);
      if number.None? { return CursorInvalid; }
      var value := number.value;
      if value < 0 { return CursorInvalid; }
      var events := JournalOf(threadId);
      if events == [] || value == 0 { return Cursor(value); }
      if value < events[0].eventSeq - 1 { return CursorExpired; }
      return Cursor(value);
    }

    method ReplayEvents(threadId: string, cursor: nat) returns (replayed: seq<Event>)
      ensures replayed == After(JournalOf(threadId), cursor)
    {
      var events := JournalOf(threadId);
      replayed := [];
      assert events[0..] == events;
      for i := 0 to |events|
        invariant After(events, cursor) == replayed + After(events[i..], cursor)
      {
        assert events[i..][1..] == events[i + 1..];
        if events[i].eventSeq > cursor {
          replayed := replayed + [events[i]];
        }
      }
    }

    method SubscribeThreadEvents(threadId: string) returns (id: nat)
      requires Valid()
      modifies this`subscribers, this`nextSubscriber
      ensures Valid() && id !in old(subscribers)
      ensures subscribers == old(subscribers)[id := Subscriber(threadId, [])]
    {
      id := nextSubscriber;
      nextSubscriber := nextSubscriber + 1;
      subscribers := subscribers[id := Subscriber(threadId, [])];
    }

    /** The next item of a subscription; waiting for one may time out. */
    method ReadSubscriberEvent(id: nat) returns (r: Read)
      requires Valid()
      modifies this`subscribers
      ensures Valid()
      ensures if id !in old(subscribers) then r == Gone && subscribers == old(subscribers)
              else
                var before := old(subscribers)[id];
                if before.events == [] then r == TimedOut && subscribers == old(subscribers)
                else r == Got(before.events[0])
                     && subscribers == old(subscribers)[id := before.(events := before.events[1..])]
    {
      if id !in subscribers { return Gone; }
      if subscribers[id].events == [] { return TimedOut; }
      r := Got(subscribers[id].events[0]);
      subscribers := subscribers[id := subscribers[id].(events := subscribers[id].events[1..])];
    }

    method Unsubscribe(id: nat)
      requires Valid()
      modifies this`subscribers
      ensures Valid() && subscribers == old(subscribers) - {id}
    {
      subscribers := subscribers - {id};
    }
  }
}
