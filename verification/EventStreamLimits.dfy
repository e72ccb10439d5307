/** The care the event stream needs is exact: every careless step can cost a connection its promise. */
module EventStreamLimits {
  import opened Options
  import opened Json
  import opened EventJournal
  import opened EventStream
  import opened EventStreamCare

  lemma {:induction false} RunJoins(cfg: Config, s: State, a: seq<Step>, b: seq<Step>)
    requires Run(cfg, s, a).Some?
    ensures Run(cfg, s, a + b) == Run(cfg, Run(cfg, s, a).value, b)
    decreases |a|
  {
    if a == [] {
      assert a + b == b;
    } else {
      assert (a + b)[1..] == a[1..] + b;
      RunJoins(cfg, Apply(cfg, s, a[0]), a[1..], b);
    }
  }

  lemma RunOne(cfg: Config, s: State, e: Step, rest: seq<Step>)
    requires Enabled(s, e) && Careful(cfg, s, e)
    ensures Run(cfg, s, [e] + rest) == Run(cfg, Apply(cfg, s, e), rest)
  {
    assert ([e] + rest)[1..] == rest;
  }

  lemma RunTwo(cfg: Config, s: State, e: Step, f: Step)
    requires Enabled(s, e) && Careful(cfg, s, e)
    requires Enabled(Apply(cfg, s, e), f) && Careful(cfg, Apply(cfg, s, e), f)
    ensures Run(cfg, s, [e, f]) == Some(Apply(cfg, Apply(cfg, s, e), f))
  {
    RunOne(cfg, s, e, [f]);
    RunOne(cfg, Apply(cfg, s, e), f, []);
    assert [e] + [f] == [e, f] && [f] + [] == [f];
  }

  lemma Chain(cfg: Config, s: State, a: seq<Step>, t: State, b: seq<Step>, u: State)
    requires Run(cfg, s, a) == Some(t) && Run(cfg, t, b) == Some(u)
    ensures Run(cfg, s, a + b) == Some(u)
  {
    RunJoins(cfg, s, a, b);
  }

  /** The same store, and a connection that has handled `passed` with nothing waiting. */
  ghost predicate Drained(s: State, t: State, passed: seq<Event>)
    requires s.session.Streaming?
  {
    && t.history == s.history && t.journal == s.journal && t.sequence == s.sequence && t.drain == s.drain
    && t.session.Streaming? && t.session.from == s.session.from && t.session.passed == passed
    && t.session.outbox == [] && t.session.queue == []
  }

  /** Everything handled, waiting to be handled and queued. */
  function Waiting(s: State): seq<Event>
    requires s.session.Streaming?
  {
    s.session.passed + s.session.outbox + LiveEvents(s.session.queue)
  }

  /** Nothing but the connection has changed, and it is still in step. */
  ghost predicate SameStore(s: State, t: State)
    requires s.session.Streaming?
  {
    && InStep(t) && t.session.from == s.session.from && (t.session.reading ==> t.session.outbox == [])
    && t.history == s.history && t.journal == s.journal && t.sequence == s.sequence && t.inFlight == s.inFlight
  }

  lemma HandledOne(s: State, t: State)
    requires InStep(s) && InStep(t)
    requires var Streaming(_, passed, outbox, queue, _) := s.session;
             if outbox != []
             then
               t.session.passed == passed + [outbox[0]] && t.session.outbox == outbox[1..]
               && t.session.queue == queue
             else queue != [] && t.session.passed == passed + [queue[0].event] && t.session.outbox == []
                  && t.session.queue == queue[1..]
    ensures Waiting(t) == Waiting(s)
  {
  }

  /** The next waiting event is handled; for a queued one the route looks its subscription up first. */
  lemma DeliverNext(cfg: Config, s: State) returns (trace: seq<Step>, t: State)
    requires InStep(s) && (s.session.reading ==> s.session.outbox == [])
    requires s.session.outbox != [] || s.session.queue != []
    ensures Run(cfg, s, trace) == Some(t) && SameStore(s, t) && Waiting(t) == Waiting(s)
    ensures |t.session.outbox| + |t.session.queue| < |s.session.outbox| + |s.session.queue|
  {
    if s.session.outbox != [] || s.session.reading {
      t := Apply(cfg, s, Deliver);
      RunOne(cfg, s, Deliver, []);
      trace := [Deliver] + [];
    } else {
      t := Apply(cfg, Apply(cfg, s, BeginRead), Deliver);
      RunTwo(cfg, s, BeginRead, Deliver);
      trace := [BeginRead, Deliver];
    }
    HandledOne(s, t);
  }

  /** Handling everything that waits. */
  lemma {:induction false} DeliverAll(cfg: Config, s: State) returns (trace: seq<Step>, t: State)
    requires InStep(s) && (s.session.reading ==> s.session.outbox == [])
    ensures Run(cfg, s, trace) == Some(t) && t.inFlight == s.inFlight && Drained(s, t, Waiting(s))
    decreases |s.session.outbox| + |s.session.queue|
  {
    if s.session.outbox == [] && s.session.queue == [] {
      trace, t := [], s;
      assert Waiting(s) == s.session.passed;
    } else {
      var one, u := DeliverNext(cfg, s);
      var rest, v := DeliverAll(cfg, u);
      trace, t := one + rest, v;
      Chain(cfg, s, one, u, rest, v);
    }
  }

  lemma FanOutOne(cfg: Config, s: State) returns (trace: seq<Step>, t: State)
    requires ValidConfig(cfg) && InStep(s) && s.session.outbox == [] && s.session.queue == [] && s.inFlight != []
    ensures Run(cfg, s, trace) == Some(t) && t.inFlight == s.inFlight[1..]
    ensures Drained(s, t, s.session.passed + [s.inFlight[0]])
  {
    var u := Apply(cfg, s, FanOut(0));
    assert Without(s.inFlight, 0) == s.inFlight[1..];
    RunOne(cfg, s, FanOut(0), []);
    var rest, v := DeliverAll(cfg, u);
    LiveEventsAppend(s.session.queue, s.inFlight[0]);
    assert Waiting(u) == s.session.passed + [] + ([] + [s.inFlight[0]]) == s.session.passed + [s.inFlight[0]];
    trace, t := [FanOut(0)] + [] + rest, v;
    Chain(cfg, s, [FanOut(0)] + [], u, rest, v);
  }

  /** Fanning out and handling everything in flight, in journal order. */
  lemma {:induction false} FanOutAll(cfg: Config, s: State) returns (trace: seq<Step>, t: State)
    requires ValidConfig(cfg) && InStep(s) && s.session.outbox == [] && s.session.queue == []
    ensures Run(cfg, s, trace) == Some(t) && t.inFlight == []
    ensures Drained(s, t, s.session.passed + s.inFlight)
    decreases |s.inFlight|
  {
    if s.inFlight == [] {
      trace, t := [], s;
      assert s.session.passed + s.inFlight == s.session.passed;
    } else {
      var one, u := FanOutOne(cfg, s);
      var rest, v := FanOutAll(cfg, u);
      trace, t := one + rest, v;
      Chain(cfg, s, one, u, rest, v);
      assert u.session.passed + u.inFlight == s.session.passed + s.inFlight;
    }
  }

  lemma Appended(cfg: Config, s: State) returns (t: State)
    requires s.inFlight == [] && s.drain.None?
    ensures t == Apply(cfg, s, Append(0, "", Null)) && t.session == s.session && t.drain == s.drain
    ensures var next := Event(s.sequence + 1, 0, "", Null); t.history == s.history + [next] && t.inFlight == [next]
  {
    t := Apply(cfg, s, Append(0, "", Null));
  }

  /** The connection has handled everything and one event more. */
  ghost predicate DrainedAndMore(s: State, t: State, passed: seq<Event>)
    requires s.session.Streaming?
  {
    var next := Event(s.sequence + 1, 0, "", Null);
    && t.history == s.history + [next] && t.session.Streaming? && t.session.from == s.session.from
    && t.session.passed == passed + [next]
  }

  /** One more event, handled. */
  lemma OneMore(cfg: Config, s: State) returns (trace: seq<Step>, t: State)
    requires ValidConfig(cfg) && InStep(s) && s.session.outbox == [] && s.session.queue == [] && s.inFlight == []
    ensures Run(cfg, s, trace) == Some(t) && DrainedAndMore(s, t, s.session.passed)
  {
    var more := Append(0, "", Null);
    var u := Appended(cfg, s);
    var rest, v := FanOutAll(cfg, u);
    RunOne(cfg, s, more, rest);
    trace, t := [more] + rest, v;
  }

  /** Handling all there is. */
  lemma HandleAll(cfg: Config, s: State) returns (trace: seq<Step>, t: State)
    requires ValidConfig(cfg) && InStep(s) && (s.session.reading ==> s.session.outbox == [])
    ensures Run(cfg, s, trace) == Some(t) && t.inFlight == [] && Drained(s, t, Pipeline(s))
  {
    var a, u := DeliverAll(cfg, s);
    var b, v := FanOutAll(cfg, u);
    Chain(cfg, s, a, u, b, v);
    trace, t := a + b, v;
  }

  /** Handling all there is, and one event more. */
  lemma Drain(cfg: Config, s: State) returns (trace: seq<Step>, t: State)
    requires ValidConfig(cfg) && InStep(s) && (s.session.reading ==> s.session.outbox == [])
    ensures Run(cfg, s, trace) == Some(t) && DrainedAndMore(s, t, Pipeline(s))
  {
    var a, u := HandleAll(cfg, s);
    var b, v := OneMore(cfg, u);
    Chain(cfg, s, a, u, b, v);
    trace, t := a + b, v;
  }

  /** In a numbered history only the last place can hold the next number. */
  lemma LastNumber(history: seq<Event>, next: Event)
    requires Numbered(history) && next.eventSeq == |history| + 1
    ensures forall i | 0 <= i <= |history| && (history + [next])[i] == next :: i == |history|
  {
  }

  /** A stream in step whose pipeline is not the rest of the journal will break the promise. */
  lemma BrokenPipeline(cfg: Config, s: State) returns (trace: seq<Step>)
    requires ValidConfig(cfg) && StoreInv(s) && InStep(s) && (s.session.reading ==> s.session.outbox == [])
    requires !(0 <= s.session.from <= |s.history| && Pipeline(s) == s.history[s.session.from..])
    ensures Run(cfg, s, trace).Some? && !Lossless(Run(cfg, s, trace).value)
  {
    var steps, t := Drain(cfg, s);
    trace := steps;
    var passed := t.session.passed;
    LastNumber(s.history, passed[|passed| - 1]);
    assert Pipeline(s) == passed[..|passed| - 1];
  }

  lemma CarelessFanOut(cfg: Config, s: State, k: nat) returns (trace: seq<Step>)
    requires ValidConfig(cfg) && Inv(s) && Enabled(s, FanOut(k)) && !Careful(cfg, s, FanOut(k))
    ensures var t := Apply(cfg, s, FanOut(k)); Run(cfg, t, trace).Some? && !Lossless(Run(cfg, t, trace).value)
  {
    var t := Apply(cfg, s, FanOut(k));
    var sent := s.session.passed + s.session.outbox + LiveEvents(s.session.queue);
    LiveEventsAppend(s.session.queue, s.inFlight[k]);
    assert Pipeline(t)[|sent|] == s.inFlight[k] && Pipeline(s)[|sent|] == s.inFlight[0];
    assert Pipeline(s)[|sent| + k] == s.inFlight[k];
    StepKeepsStore(cfg, s, FanOut(k));
    trace := BrokenPipeline(cfg, t);
  }

  lemma CarelessObserver(cfg: Config, s: State, k: nat) returns (trace: seq<Step>)
    requires ValidConfig(cfg) && Inv(s) && Enabled(s, ObserverFails(k)) && !Careful(cfg, s, ObserverFails(k))
    ensures var t := Apply(cfg, s, ObserverFails(k)); Run(cfg, t, trace).Some? && !Lossless(Run(cfg, t, trace).value)
  {
    var t := Apply(cfg, s, ObserverFails(k));
    assert |Pipeline(t)| == |Pipeline(s)| - 1;
    StepKeepsStore(cfg, s, ObserverFails(k));
    trace := BrokenPipeline(cfg, t);
  }

  lemma CarelessSubscribe(cfg: Config, s: State) returns (trace: seq<Step>)
    requires ValidConfig(cfg) && Inv(s) && Enabled(s, Subscribe) && !Careful(cfg, s, Subscribe)
    ensures var t := Apply(cfg, s, Subscribe); Run(cfg, t, trace).Some? && !Lossless(Run(cfg, t, trace).value)
  {
    var t := Apply(cfg, s, Subscribe);
    var Replayed(from, replay, upTo) := s.session;
    assert Pipeline(t) == replay + s.inFlight && |replay| == upTo - from;
    assert s.inFlight == Pipeline(t)[upTo - from..];
    assert s.history[upTo..] == s.history[from..][upTo - from..];
    StepKeepsStore(cfg, s, Subscribe);
    trace := BrokenPipeline(cfg, t);
  }

  /** With nobody listening, everything in flight can be fanned out to nobody. */
  lemma {:induction false} FanOutUnheard(cfg: Config, s: State) returns (trace: seq<Step>)
    requires !s.session.Streaming? && s.drain.None?
    ensures Run(cfg, s, trace) == Some(s.(inFlight := [])) && NoReset(trace)
    decreases |s.inFlight|
  {
    if s.inFlight == [] {
      trace := [];
    } else {
      var t := Apply(cfg, s, FanOut(0));
      var rest := FanOutUnheard(cfg, t);
      trace := [FanOut(0)] + rest;
      RunOne(cfg, s, FanOut(0), rest);
    }
  }

  lemma CarelessReplay(cfg: Config, s: State) returns (trace: seq<Step>)
    requires ValidConfig(cfg) && Inv(s) && Enabled(s, Replay) && !Careful(cfg, s, Replay)
    ensures var t := Apply(cfg, s, Replay); Run(cfg, t, trace).Some? && !Lossless(Run(cfg, t, trace).value)
  {
    var t := Apply(cfg, s, Replay);
    var d := |s.history| - |s.journal|;
    AfterTail(s.history, d, s.session.cursor);
    assert t.session.replay == s.journal && s.session.cursor < d;
    StepKeepsStore(cfg, s, Replay);
    var a := FanOutUnheard(cfg, t);
    var u := Run(cfg, t, a).value;
    var v := Apply(cfg, u, Subscribe);
    assert |Pipeline(v)| == |s.journal|;
    var b := BrokenPipeline(cfg, v);
    RunOne(cfg, u, Subscribe, b);
    RunJoins(cfg, t, a, [Subscribe] + b);
    trace := a + ([Subscribe] + b);
  }

  lemma LastFollows(xs: seq<Event>, history: seq<Event>, from: int)
    requires Numbered(history) && xs != [] && Follows(xs, history, from)
    ensures xs[|xs| - 1].eventSeq == from + |xs|
  {
    assert xs[|xs| - 1] == history[from + |xs| - 1];
  }

  /** A later event taken out of the middle of a drain breaks the promise at once. */
  lemma CarelessDeliver(cfg: Config, s: State) returns (trace: seq<Step>)
    requires ValidConfig(cfg) && Inv(s) && Enabled(s, Deliver) && !Careful(cfg, s, Deliver)
    ensures var t := Apply(cfg, s, Deliver); Run(cfg, t, trace).Some? && !Lossless(Run(cfg, t, trace).value)
  {
    var t := Apply(cfg, s, Deliver);
    var passed := t.session.passed;
    assert passed[|passed| - 1] == s.session.queue[0].event;
    if Lossless(t) { LastFollows(passed, t.history, t.session.from); }
    trace := [];
  }

  lemma CarelessRun(cfg: Config, s: State, e: Step) returns (trace: seq<Step>)
    requires ValidConfig(cfg) && Inv(s) && Enabled(s, e) && !Careful(cfg, s, e)
    ensures var t := Apply(cfg, s, e); Run(cfg, t, trace).Some? && !Lossless(Run(cfg, t, trace).value)
  {
    match e
    case FanOut(k) => trace := CarelessFanOut(cfg, s, k);
    case ObserverFails(k) => trace := CarelessObserver(cfg, s, k);
    case Replay => trace := CarelessReplay(cfg, s);
    case Subscribe => trace := CarelessSubscribe(cfg, s);
    case Deliver => trace := CarelessDeliver(cfg, s);
  }

  /** Careful is exactly what the promise needs: after a step, every careful continuation keeps the
      connection lossless if and only if the step was careful. */
  lemma CarefulIsExact(cfg: Config, s: State, e: Step)
    requires ValidConfig(cfg) && Inv(s) && Enabled(s, e)
    ensures Careful(cfg, s, e) <==>
              forall trace | Run(cfg, Apply(cfg, s, e), trace).Some? ::
                Lossless(Run(cfg, Apply(cfg, s, e), trace).value)
  {
    var t := Apply(cfg, s, e);
    if Careful(cfg, s, e) {
      StepIsSane(cfg, s, e);
      StepInLine(cfg, s, e);
      forall trace | Run(cfg, t, trace).Some?
        ensures Lossless(Run(cfg, t, trace).value)
      {
        RunKeepsInv(cfg, t, trace);
        InvLossless(Run(cfg, t, trace).value);
      }
    } else {
      var trace := CarelessRun(cfg, s, e);
      assert Run(cfg, t, trace).Some?;
    }
  }
}
