/** What reconnecting and starting over can do for a client: both directions. */
module EventStreamRecovery {
  import opened Options
  import opened Json
  import opened EventJournal
  import opened EventStream
  import opened EventStreamCare
  import opened EventStreamLimits
  import opened EventStreamRaces

  lemma JoinNoReset(a: seq<Step>, b: seq<Step>)
    requires NoReset(a) && NoReset(b)
    ensures NoReset(a + b)
  {
  }

  /** Nobody is connected, and nothing is on its way. */
  function Quiet(s: State): State { s.(session := Closed, drain := None, inFlight := []) }

  lemma ComesToRest(cfg: Config, s: State) returns (trace: seq<Step>)
    requires !s.session.MustResync?
    ensures Run(cfg, s, trace) == Some(Quiet(s)) && NoReset(trace)
  {
    var t := Apply(cfg, s, Disconnect);
    RunOne(cfg, s, Disconnect, []);
    trace := [Disconnect] + [];
    if t.drain.Some? {
      var u := Apply(cfg, t, PutControl);
      RunTwo(cfg, s, Disconnect, PutControl);
      trace, t := [Disconnect, PutControl], u;
    }
    var rest := FanOutUnheard(cfg, t);
    Chain(cfg, s, trace, t, rest, Quiet(s));
    JoinNoReset(trace, rest);
    trace := trace + rest;
  }

  lemma Reopen(cfg: Config, s: State) returns (trace: seq<Step>)
    requires Sane(s) && !s.session.MustResync? && Available(s.journal, LastSeq(s.client))
    ensures Run(cfg, s, trace) == Some(Opened(Quiet(s))) && NoReset(trace)
  {
    var open := [ParseCursor] + [Replay, Subscribe];
    var rest := ComesToRest(cfg, s);
    AtomicOpenIsCareful(cfg, Quiet(s));
    Chain(cfg, s, rest, Quiet(s), open, Opened(Quiet(s)));
    JoinNoReset(rest, open);
    trace := rest + open;
  }

  /** The first event of the replay that the client sees is at position `k`, and it can be applied. */
  ghost predicate AppliesNext(cfg: Config, s: State, k: nat) {
    && s.session.Streaming? && k < |s.session.outbox| && Visible(cfg, s.session.outbox[k])
    && (forall i | 0 <= i < k :: !Visible(cfg, s.session.outbox[i]))
    && ApplyEvent(s.client, s.session.outbox[k]).applied == s.client.applied + [s.session.outbox[k]]
  }

  lemma {:induction false} ReachNext(cfg: Config, s: State, k: nat) returns (trace: seq<Step>, t: State)
    requires AppliesNext(cfg, s, k)
    ensures Run(cfg, s, trace) == Some(t) && NoReset(trace)
    ensures t.client.applied == s.client.applied + [s.session.outbox[k]]
    ensures t.history == s.history && t.journal == s.journal
    decreases k
  {
    var u := Apply(cfg, s, Deliver);
    if k == 0 {
      RunOne(cfg, s, Deliver, []);
      trace, t := [Deliver] + [], u;
    } else {
      var rest, v := ReachNext(cfg, u, k - 1);
      RunOne(cfg, s, Deliver, rest);
      trace, t := [Deliver] + rest, v;
    }
  }

  lemma {:induction false} FirstVisible(cfg: Config, events: seq<Event>, w: nat) returns (k: nat)
    requires w < |events| && Visible(cfg, events[w])
    ensures k <= w && Visible(cfg, events[k]) && forall i | 0 <= i < k :: !Visible(cfg, events[i])
    decreases w
  {
    if v :| 0 <= v < w && Visible(cfg, events[v]) {
      k := FirstVisible(cfg, events, v);
    } else {
      k := w;
    }
  }

  // ---------------------------------------------------------------- starting at zero

  /** A client with an empty projection applies the first visible event that is retained. */
  lemma StartsOver(cfg: Config, s: State, k: nat) returns (trace: seq<Step>, t: State)
    requires Sane(s) && !s.session.MustResync? && s.client.applied == []
    requires k < |s.journal| && Visible(cfg, s.journal[k])
    requires forall i | 0 <= i < k :: !Visible(cfg, s.journal[i])
    ensures Run(cfg, s, trace) == Some(t) && NoReset(trace)
    ensures t.client.applied == [s.journal[k]] && t.history == s.history && t.journal == s.journal
  {
    var open := Reopen(cfg, s);
    JournalKnown(s);
    AfterZero(s.journal);
    var rest, u := ReachNext(cfg, Opened(Quiet(s)), k);
    Chain(cfg, s, open, Opened(Quiet(s)), rest, u);
    JoinNoReset(open, rest);
    trace, t := open + rest, u;
  }

  /** After a reset the client applies the first visible event that is retained, whatever was hidden
      before it. */
  lemma HiddenEventPassed(cfg: Config, s: State, k: nat) returns (trace: seq<Step>, t: State)
    requires ValidConfig(cfg) && Sane(s) && !s.session.MustResync? && s.client.gap
    requires k < |s.journal| && Visible(cfg, s.journal[k])
    requires forall i | 0 <= i < k :: !Visible(cfg, s.journal[i])
    ensures Run(cfg, s, [ResetCursor] + trace) == Some(t)
    ensures t.client.applied == [s.journal[k]] && t.history == s.history && t.journal == s.journal
  {
    var u := Apply(cfg, s, ResetCursor);
    StepIsSane(cfg, s, ResetCursor);
    trace, t := StartsOver(cfg, u, k);
    RunOne(cfg, s, ResetCursor, trace);
  }

  /** The client gets past its last event before retention drops anything more. */
  ghost predicate Passes(cfg: Config, s: State, trace: seq<Step>) {
    && Exec(cfg, s, trace).Some?
    && var t := Exec(cfg, s, trace).value;
       DroppedCount(t) == DroppedCount(s) && LastSeq(t.client) > LastSeq(s.client)
  }

  /** A blocked client that has seen its gap, while a visible event after the hidden one is retained:
      starting over can help if and only if no visible event before the hidden one is retained. */
  lemma ResetHelpsIff(cfg: Config, s: State, w: nat)
    requires ValidConfig(cfg) && Sane(s) && !s.session.MustResync? && s.client.gap && Blocked(cfg, s)
    requires LastSeq(s.client) < w < |s.history| && DroppedCount(s) <= w && Visible(cfg, s.history[w])
    ensures (exists trace :: Passes(cfg, s, trace))
       <==> AllHidden(cfg, s.history, DroppedCount(s), LastSeq(s.client))
  {
    var h, d := LastSeq(s.client), DroppedCount(s);
    if AllHidden(cfg, s.history, d, h) {
      var trace := StartingOverPasses(cfg, s, w);
      assert Passes(cfg, s, trace);
    } else {
      var v :| d <= v < h && 0 <= v < |s.history| && Visible(cfg, s.history[v]);
      forall trace | Exec(cfg, s, trace).Some? && DroppedCount(Exec(cfg, s, trace).value) == d
        ensures !Passes(cfg, s, trace)
      {
        BarrierHolds(cfg, s, trace, v, h);
      }
    }
  }

  lemma StartingOverPasses(cfg: Config, s: State, w: nat) returns (trace: seq<Step>)
    requires ValidConfig(cfg) && Sane(s) && !s.session.MustResync? && s.client.gap && Blocked(cfg, s)
    requires LastSeq(s.client) < w < |s.history| && DroppedCount(s) <= w && Visible(cfg, s.history[w])
    requires AllHidden(cfg, s.history, DroppedCount(s), LastSeq(s.client))
    ensures Passes(cfg, s, trace)
  {
    var h, d := LastSeq(s.client), DroppedCount(s);
    assert forall i | 0 <= i < |s.journal| :: s.journal[i] == s.history[d + i];
    var k := FirstVisible(cfg, s.journal, w - d);
    assert Visible(cfg, s.history[d + k]);
    var rest, t := HiddenEventPassed(cfg, s, k);
    trace := [ResetCursor] + rest;
    RunIsExec(cfg, s, trace);
  }

  // -------------------------------------------------------------- blocked is exactly stuck

  lemma OneMoreRun(cfg: Config, s: State, name: string) returns (trace: seq<Step>, t: State)
    requires s == Quiet(s) && s.sequence == |s.history|
    ensures Run(cfg, s, trace) == Some(t) && NoReset(trace) && t == Quiet(t) && t.client == s.client
    ensures t.history == s.history + [Event(|s.history| + 1, 0, name, Null)]
  {
    trace := [Append(0, name, Null), FanOut(0)];
    var u := Apply(cfg, s, trace[0]);
    t := Apply(cfg, u, trace[1]);
    assert Without(u.inFlight, 0) == [];
    RunTwo(cfg, s, trace[0], trace[1]);
  }

  /** A client at the end of the journal, or at zero, waits for the next visible event. */
  lemma OneMoreVisible(cfg: Config, s: State, name: string) returns (trace: seq<Step>, t: State)
    requires ValidConfig(cfg) && Sane(s) && s == Quiet(s)
    ensures Run(cfg, s, trace) == Some(t) && NoReset(trace) && t == Quiet(t) && Sane(t) && t.client == s.client
    ensures t.history == s.history + [Event(|s.history| + 1, 0, name, Null)] && t.journal != []
  {
    trace, t := OneMoreRun(cfg, s, name);
    RunIsExec(cfg, s, trace);
    ExecIsSane(cfg, s, trace);
  }

  lemma FirstIsThere(cfg: Config, s: State) returns (k: nat)
    requires Sane(s) && s.journal != [] && LastSeq(s.client) == 0 && Visible(cfg, s.history[|s.history| - 1])
    ensures AppliesNext(cfg, Opened(s), k)
  {
    JournalKnown(s);
    AfterZero(s.journal);
    k := FirstVisible(cfg, s.journal, |s.journal| - 1);
  }

  lemma SecondIsThere(cfg: Config, s: State)
    requires Sane(s) && Available(s.journal, LastSeq(s.client)) && 0 < LastSeq(s.client) < |s.history|
    requires Visible(cfg, s.history[LastSeq(s.client)])
    ensures AppliesNext(cfg, Opened(s), 0)
  {
    ReplayIsStretch(s.journal, s.history, LastSeq(s.client));
  }

  /** The first visible event of the replay is one the client can apply. */
  lemma NextIsThere(cfg: Config, s: State) returns (k: nat)
    requires Sane(s) && s == Quiet(s) && Available(s.journal, LastSeq(s.client)) && s.journal != []
    requires LastSeq(s.client) < |s.history|
    requires LastSeq(s.client) > 0 ==> Visible(cfg, s.history[LastSeq(s.client)])
    requires LastSeq(s.client) == 0 ==> Visible(cfg, s.history[|s.history| - 1])
    ensures AppliesNext(cfg, Opened(s), k)
  {
    if LastSeq(s.client) == 0 {
      k := FirstIsThere(cfg, s);
    } else {
      SecondIsThere(cfg, s);
      k := 0;
    }
  }

  lemma AdvancesFrom(cfg: Config, s: State) returns (trace: seq<Step>, t: State)
    requires Sane(s) && s == Quiet(s) && Available(s.journal, LastSeq(s.client)) && s.journal != []
    requires LastSeq(s.client) < |s.history|
    requires LastSeq(s.client) > 0 ==> Visible(cfg, s.history[LastSeq(s.client)])
    requires LastSeq(s.client) == 0 ==> Visible(cfg, s.history[|s.history| - 1])
    ensures Run(cfg, s, trace) == Some(t) && NoReset(trace) && |t.client.applied| == |s.client.applied| + 1
  {
    var k := NextIsThere(cfg, s);
    var open := Reopen(cfg, s);
    var rest, u := ReachNext(cfg, Opened(s), k);
    Chain(cfg, s, open, Opened(s), rest, u);
    JoinNoReset(open, rest);
    trace, t := open + rest, u;
  }

  /** A client that is not blocked, and whose cursor is still available, has a careful run in which it
      applies one event more. */
  lemma UnblockedCanAdvance(cfg: Config, s: State, name: string) returns (trace: seq<Step>, t: State)
    requires ValidConfig(cfg) && SessionMethod(name) && cfg.listens(name)
    requires Sane(s) && !s.session.MustResync? && !Blocked(cfg, s) && Available(s.journal, LastSeq(s.client))
    ensures Run(cfg, s, trace) == Some(t) && NoReset(trace) && |t.client.applied| == |s.client.applied| + 1
  {
    var last := LastSeq(s.client);
    var rest := ComesToRest(cfg, s);
    var u := Quiet(s);
    if !(0 < last < |s.history|) {
      var more, v := OneMoreVisible(cfg, u, name);
      Chain(cfg, s, rest, u, more, v);
      JoinNoReset(rest, more);
      rest, u := rest + more, v;
    }
    var steps, v := AdvancesFrom(cfg, u);
    Chain(cfg, s, rest, u, steps, v);
    JoinNoReset(rest, steps);
    trace, t := rest + steps, v;
  }

  /** Blocked is exactly stuck: without a reset no continuation at all changes what the client has
      applied, if and only if the event after its last one is hidden from it. */
  lemma BlockedIffStuck(cfg: Config, s: State, name: string)
    requires ValidConfig(cfg) && SessionMethod(name) && cfg.listens(name)
    requires Sane(s) && !s.session.MustResync? && Available(s.journal, LastSeq(s.client))
    ensures Blocked(cfg, s) <==>
              forall trace | NoReset(trace) && Exec(cfg, s, trace).Some? ::
                Exec(cfg, s, trace).value.client.applied == s.client.applied
  {
    if Blocked(cfg, s) {
      forall trace | NoReset(trace) && Exec(cfg, s, trace).Some?
        ensures Exec(cfg, s, trace).value.client.applied == s.client.applied
      {
        HiddenEventBlocks(cfg, s, trace);
      }
    } else {
      var trace, t := UnblockedCanAdvance(cfg, s, name);
      RunIsExec(cfg, s, trace);
      assert NoReset(trace) && Exec(cfg, s, trace).Some?;
    }
  }

  // ------------------------------------------------------------------ refused cursors, restarts, timeouts

  /** A connection attempt is refused if and only if the event after the client's last one is gone; the
      cursor is checked without the lock, even during a drain. */
  lemma RefusedIff(cfg: Config, s: State)
    requires Sane(s) && s.session.Closed?
    ensures Apply(cfg, s, ParseCursor).session
         == if 0 < LastSeq(s.client) < DroppedCount(s) then MustResync else CursorParsed(LastSeq(s.client))
  {
    AvailableIff(s.journal, s.history, LastSeq(s.client));
  }

  lemma AvailableIff(journal: seq<Event>, history: seq<Event>, cursor: nat)
    requires Numbered(history) && Retained(journal, history)
    ensures Available(journal, cursor) <==> !(0 < cursor < |history| - |journal|)
  {
    if journal != [] { assert journal[0] == history[|history| - |journal|]; }
  }

  /** And that is final: no run takes the client any further, not even through a restart. */
  lemma {:induction false} RefusedIsFinal(cfg: Config, s: State, trace: seq<Step>)
    requires s.session.MustResync? && Exec(cfg, s, trace).Some?
    ensures Exec(cfg, s, trace).value.session.MustResync? && Exec(cfg, s, trace).value.client == s.client
    decreases |trace|
  {
    if trace != [] { RefusedIsFinal(cfg, Apply(cfg, s, trace[0]), trace[1..]); }
  }

  /** A restart forgets everything on its way, and so a client can reopen right after it, carefully,
      and is replayed all that it missed. */
  lemma RestartThenOpen(cfg: Config, s: State)
    requires Sane(s) && !s.session.MustResync? && Available(s.journal, LastSeq(s.client))
    ensures Run(cfg, s, [Restart] + ([ParseCursor] + [Replay, Subscribe])) == Some(Opened(Quiet(s)))
  {
    var t := Apply(cfg, s, Restart);
    RecoveredSequenceIsHead(s.journal, s.history);
    assert t == Quiet(s);
    AtomicOpenIsCareful(cfg, t);
    RunOne(cfg, s, Restart, [ParseCursor] + [Replay, Subscribe]);
  }

  /** A read that times out changes nothing: the route looks its subscription up and waits again. */
  lemma WaitsAgain(cfg: Config, s: State)
    requires s.drain.None? && s.session.Streaming? && s.session.outbox == []
    requires s.session.reading && s.session.queue == []
    ensures Run(cfg, s, [ReadTimesOut, BeginRead]) == Some(s)
  {
    RunTwo(cfg, s, ReadTimesOut, BeginRead);
  }

  /** After a careful run a cursor is reset only for a client that is blocked. */
  lemma NoNeedlessReset(cfg: Config, trace: seq<Step>)
    requires ValidConfig(cfg) && Run(cfg, INITIAL, trace).Some?
    ensures Enabled(Run(cfg, INITIAL, trace).value, ResetCursor) ==> Blocked(cfg, Run(cfg, INITIAL, trace).value)
  {
    CarefulClientsKeepUp(cfg, trace);
  }

  /** An append keeps the journal as short as both floors allow: what it drops is more than the window
      old and leaves the configured number, and if more than that number stays, the oldest is not. */
  lemma AppendTrims(cfg: Config, s: State, nowMs: int, methodName: string, body: Json)
    requires ValidConfig(cfg) && Sane(s) && s.drain.None?
    ensures var t := Apply(cfg, s, Append(nowMs, methodName, body));
            && t.journal != []
            && (DroppedCount(t) > DroppedCount(s) ==> |t.journal| >= cfg.retention.maxEvents)
            && (forall i | DroppedCount(s) <= i < DroppedCount(t) && 0 <= i < |t.history| ::
                  var at := t.history[i].occurredAtMs;
                  if at == 0 then cfg.retention.windowMs < 0 else at + cfg.retention.windowMs < nowMs)
            && (|t.journal| > cfg.retention.maxEvents ==>
                  var at := t.journal[0].occurredAtMs;
                  if at == 0 then cfg.retention.windowMs >= 0 else at + cfg.retention.windowMs >= nowMs)
  {
    var e := Event(s.sequence + 1, nowMs, methodName, body);
    var t := Apply(cfg, s, Append(nowMs, methodName, body));
    var dropped := TrimKeepsBothFloors(s.journal + [e], nowMs, cfg.retention);
    StepKeepsStore(cfg, s, Append(nowMs, methodName, body));
    assert forall i | 0 <= i < |s.journal| :: s.journal[i] == s.history[DroppedCount(s) + i];
    assert DroppedCount(t) == DroppedCount(s) + dropped;
    forall i | DroppedCount(s) <= i < DroppedCount(t) && 0 <= i < |t.history|
      ensures t.history[i] == (s.journal + [e])[i - DroppedCount(s)]
    {
    }
  }
}
