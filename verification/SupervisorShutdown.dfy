/** Which shutdowns are clean, how many backends can pile up, and runs that show both bounds tight. */
module SupervisorShutdown {
  import opened Sequences
  import opened Options
  import opened Supervisor
  import opened SupervisorRuns

  /** Appending one enabled step to a run. */
  lemma Extend(s: State, trace: seq<Step>, e: Step) returns (longer: seq<Step>)
    requires Exec(s, trace).Some? && Enabled(Exec(s, trace).value, e)
    ensures Exec(s, longer) == Some(Apply(Exec(s, trace).value, e))
    ensures FailedRestarts(s, longer)
         == FailedRestarts(s, trace) + if FailsAttempt(Exec(s, trace).value, e) then 1 else 0
  {
    longer := trace + [e];
    assert Init(longer) == trace;
  }

  // ------------------------------------------------------------ clean shutdowns

  /** How a process should exit: no backend left running without a signal, and none without SIGKILL
      once the stop is over. (An impatient second request may exit during the stop's wait.) */
  ghost predicate Clean(s: State) {
    s.shell.appExited ==>
      forall c | 0 <= c < |s.children| && Alive(s.children[c]) ::
        s.children[c].killSent || (StopIs(s, Waiting) && s.children[c].termSent)
  }

  /** A recovery that can still reach a spawn: it waits for its port, or some dialog on its way can
      still be accepted. */
  predicate CanRespawn(s: State, r: Recovery) {
    r.RestartPort? || (Active(r) && CanAnswer(s, true))
  }

  /** What a shutdown under way has to look like to end well: nothing can spawn any more, and every
      backend still running is the current one, already sent SIGTERM, or has been sent SIGKILL. */
  ghost predicate Settled(s: State) {
    && !s.tasks.boot.AwaitingPort?
    && (forall i | 0 <= i < |s.tasks.recoveries| :: !CanRespawn(s, s.tasks.recoveries[i]))
    && forall c | 0 <= c < |s.children| && Alive(s.children[c]) ::
         if StopIs(s, Stopped) then s.children[c].killSent
         else s.backendProcess == Some(c) && s.children[c].termSent
  }

  /** Quitting has begun and the process is still there. */
  ghost predicate ShuttingDown(s: State) { Inv(s) && s.shell.isQuitting && !s.shell.appExited }

  lemma PhaseOfStop(s: State)
    requires ShuttingDown(s)
    ensures StopIs(s, Waiting) || StopIs(s, Stopped)
    ensures !s.tasks.boot.NotStarted?
    ensures StopIs(s, Waiting) ==> HasProcess(s) && !s.tasks.boot.AwaitingPort?
    ensures StopIs(s, Stopped) ==> s.shell.closing && s.shell.windowOpen
  {
  }

  lemma GraceStaysSettled(s: State, call: nat)
    requires ShuttingDown(s) && Settled(s) && Enabled(s, GraceOver(call))
    ensures Settled(Apply(s, GraceOver(call)))
  {
    PhaseOfStop(s);
    assert call == 0;
    var p := s.backendProcess.value;
    var signalled := SendSignal(s.children, p, true);
    assert Apply(s, GraceOver(call)).children == signalled;
  }

  lemma ExitStaysSettled(s: State, e: Step)
    requires ShuttingDown(s) && Settled(s) && Enabled(s, e) && e.ChildExits?
    ensures Settled(Apply(s, e))
  {
    assert forall c | 0 <= c < |s.children| && c != e.child :: Apply(s, e).children[c] == s.children[c];
  }

  lemma StepStaysSettled(s: State, e: Step)
    requires ShuttingDown(s) && Settled(s) && Enabled(s, e)
    ensures Settled(Apply(s, e))
  {
    PhaseOfStop(s);
    if e.GraceOver? {
      GraceStaysSettled(s, e.call);
    } else if e.ChildExits? {
      ExitStaysSettled(s, e);
    } else {
      assert Apply(s, e).children == s.children;
    }
  }

  /** Quitting cannot be taken back. */
  lemma StillQuitting(s: State, e: Step)
    requires Enabled(s, e) && s.shell.isQuitting
    ensures Apply(s, e).shell.isQuitting
  {
  }

  lemma {:induction false} SettledEndsClean(s: State, trace: seq<Step>)
    requires ShuttingDown(s) && Settled(s) && Exec(s, trace).Some?
    ensures var t := Exec(s, trace).value; Inv(t) && t.shell.isQuitting && Settled(t) && Clean(t)
  {
    if trace != [] {
      SettledEndsClean(s, Init(trace));
      var t := Exec(s, Init(trace)).value;
      StepStaysSettled(t, Last(trace));
      StillQuitting(t, Last(trace));
      StepKeepsTasks(t, Last(trace));
      StepKeepsStop(t, Last(trace));
    }
    SettledIsClean(Exec(s, trace).value);
  }

  lemma SettledIsClean(s: State)
    requires Inv(s) && s.shell.isQuitting && Settled(s)
    ensures Clean(s)
  {
    assert StopIs(s, Waiting) || StopIs(s, Stopped);
  }

  // ------------------------------------------------------- leaks of the unsettled

  /** A run that ends the process with a backend left over. */
  ghost predicate Leaks(s: State, trace: seq<Step>) { Exec(s, trace).Some? && !Clean(Exec(s, trace).value) }

  /** With its stop over and its windows closing, the process exits with the last window. */
  lemma CloseLast(s: State, trace: seq<Step>, c: nat) returns (longer: seq<Step>)
    requires Exec(s, trace).Some?
    requires var t := Exec(s, trace).value;
             && t.shell.closing && t.shell.windowOpen && !t.shell.appExited && StopIs(t, Stopped)
             && c < |t.children| && Alive(t.children[c]) && !t.children[c].killSent
    ensures Leaks(s, longer)
  {
    longer := Extend(s, trace, WindowCloses);
  }

  /** The spawn that waits for its port happens while the windows close. */
  lemma SpawnWhileClosing(s: State, trace: seq<Step>, r: nat) returns (longer: seq<Step>)
    requires Exec(s, trace).Some?
    requires var t := Exec(s, trace).value;
             && t.shell.closing && t.shell.windowOpen && !t.shell.appExited && StopIs(t, Stopped)
             && TaskAt(t, r, RestartPort)
    ensures Leaks(s, longer)
  {
    longer := Extend(s, trace, RestartPortFound(r));
    longer := CloseLast(s, longer, |Exec(s, trace).value.children|);
  }

  /** A recovery that can respawn gets as far as waiting for its port. */
  lemma RetryFrom(s: State, r: nat) returns (trace: seq<Step>, t: State)
    requires !s.shell.appExited && r < |s.tasks.recoveries| && CanRespawn(s, s.tasks.recoveries[r])
    ensures Exec(s, trace) == Some(t) && TaskAt(t, r, RestartPort)
    ensures t.stops == s.stops && t.children == s.children && t.shell == s.shell
    ensures t.backendProcess == s.backendProcess
  {
    trace, t := [], s;
    match s.tasks.recoveries[r]
    case CrashDialog =>
      trace := Extend(s, trace, CrashAnswered(r, true));
      t := Exec(s, trace).value;
    case RestartPort =>
    case RestartHealth =>
      trace := Extend(s, trace, RestartUnhealthy(r));
      trace := Extend(s, trace, RetryAnswered(r, true));
      t := Exec(s, trace).value;
    case RetryDialog =>
      trace := Extend(s, trace, RetryAnswered(r, true));
      t := Exec(s, trace).value;
  }

  lemma StoppedLeaks(s: State) returns (trace: seq<Step>)
    requires ShuttingDown(s) && StopIs(s, Stopped) && !Settled(s)
    ensures Leaks(s, trace)
  {
    PhaseOfStop(s);
    if c :| 0 <= c < |s.children| && Alive(s.children[c]) && !s.children[c].killSent {
      trace := CloseLast(s, [], c);
    } else if s.tasks.boot.AwaitingPort? {
      trace := Extend(s, [], BootPortFound);
      trace := CloseLast(s, trace, |s.children|);
    } else {
      var r :| 0 <= r < |s.tasks.recoveries| && CanRespawn(s, s.tasks.recoveries[r]);
      var first, t := RetryFrom(s, r);
      trace := SpawnWhileClosing(s, first, r);
    }
  }

  /** The grace period ends: the current backend gets SIGKILL, nobody else does, and the process exits
      or starts closing its windows. */
  lemma GraceEnds(s: State) returns (t: State)
    requires !s.shell.appExited && StopIs(s, Waiting) && s.shell.isQuitting && HasProcess(s)
    requires s.shell.closing ==> s.shell.windowOpen
    ensures Enabled(s, GraceOver(0)) && t == Apply(s, GraceOver(0))
    ensures StopIs(t, Stopped) && t.tasks == s.tasks && |t.children| == |s.children|
    ensures forall c | 0 <= c < |s.children| && s.backendProcess != Some(c) :: t.children[c] == s.children[c]
    ensures if s.shell.windowOpen then t.shell == s.shell.(closing := true) else t.shell.appExited
  {
    t := Apply(s, GraceOver(0));
    assert t.children == SendSignal(s.children, s.backendProcess.value, true);
  }

  /** Without a window to load, a healthy start counts as failed, and its backend runs on. */
  lemma FailWithoutWindow(s: State, trace: seq<Step>, r: nat) returns (longer: seq<Step>)
    requires Exec(s, trace).Some?
    requires var t := Exec(s, trace).value;
             !t.shell.appExited && !t.shell.windowOpen && !t.shell.closing && TaskAt(t, r, RestartPort)
    ensures Exec(s, longer).Some?
    ensures var t, u := Exec(s, trace).value, Exec(s, longer).value;
            && TaskAt(u, r, RestartPort) && u.shell == t.shell && u.stops == t.stops
            && u.children == t.children + [Child(Running, false, false)]
  {
    longer := Extend(s, trace, RestartPortFound(r));
    longer := Extend(s, longer, RestartHealthy(r));
    longer := Extend(s, longer, RetryAnswered(r, true));
  }

  /** With the window gone there is no closing phase, but one backend can come up and be abandoned
      within the wait. */
  lemma AbandonOne(s: State, trace: seq<Step>, r: nat) returns (longer: seq<Step>)
    requires Exec(s, trace).Some?
    requires var t := Exec(s, trace).value;
             && !t.shell.appExited && !t.shell.windowOpen && !t.shell.closing && t.shell.isQuitting
             && StopIs(t, Waiting) && TaskAt(t, r, RestartPort)
    ensures Leaks(s, longer)
  {
    var n := |Exec(s, trace).value.children|;
    longer := FailWithoutWindow(s, trace, r);
    longer := Extend(s, longer, RestartPortFound(r));
    var u := Exec(s, longer).value;
    assert u.children[n] == Child(Running, false, false) && u.backendProcess == Some(n + 1);
    var v := GraceEnds(u);
    longer := Extend(s, longer, GraceOver(0));
  }

  lemma RespawnLeaks(s: State, r: nat) returns (trace: seq<Step>)
    requires ShuttingDown(s) && StopIs(s, Waiting)
    requires r < |s.tasks.recoveries| && CanRespawn(s, s.tasks.recoveries[r])
    ensures Leaks(s, trace)
  {
    PhaseOfStop(s);
    var first, t := RetryFrom(s, r);
    if s.shell.windowOpen {
      var u := GraceEnds(t);
      trace := Extend(s, first, GraceOver(0));
      trace := SpawnWhileClosing(s, trace, r);
    } else {
      trace := AbandonOne(s, first, r);
    }
  }

  lemma LeftoverLeaks(s: State, c: nat) returns (trace: seq<Step>)
    requires ShuttingDown(s) && StopIs(s, Waiting)
    requires c < |s.children| && Alive(s.children[c]) && s.backendProcess != Some(c)
    ensures Leaks(s, trace)
  {
    PhaseOfStop(s);
    var t := GraceEnds(s);
    trace := Extend(s, [], GraceOver(0));
    if s.shell.windowOpen {
      trace := CloseLast(s, trace, c);
    }
  }

  /** An exit during the wait abandons a backend that was never sent SIGTERM. */
  lemma ImpatientLeaks(s: State, c: nat) returns (trace: seq<Step>)
    requires ShuttingDown(s) && StopIs(s, Waiting)
    requires c < |s.children| && Alive(s.children[c]) && !s.children[c].termSent
    ensures Leaks(s, trace)
  {
    if s.shell.windowOpen {
      trace := Extend(s, [], WindowCloses);
    } else {
      trace := Extend(s, [], QuitRequested);
    }
  }

  lemma UnsettledLeaks(s: State) returns (trace: seq<Step>)
    requires ShuttingDown(s) && !Settled(s)
    ensures Leaks(s, trace)
  {
    PhaseOfStop(s);
    if StopIs(s, Stopped) {
      trace := StoppedLeaks(s);
    } else if r :| 0 <= r < |s.tasks.recoveries| && CanRespawn(s, s.tasks.recoveries[r]) {
      trace := RespawnLeaks(s, r);
    } else if c :| 0 <= c < |s.children| && Alive(s.children[c]) && s.backendProcess != Some(c) {
      trace := LeftoverLeaks(s, c);
    } else {
      var c :| 0 <= c < |s.children| && Alive(s.children[c]) && !s.children[c].termSent;
      trace := ImpatientLeaks(s, c);
    }
  }

  /** Every continuation ends clean. */
  ghost predicate EndsClean(s: State) {
    forall trace | Exec(s, trace).Some? :: Clean(Exec(s, trace).value)
  }

  /** At every point of every shutdown: all its continuations end clean if and only if it is settled. */
  lemma CleanIffSettled(s: State)
    requires ShuttingDown(s)
    ensures Settled(s) <==> EndsClean(s)
  {
    if Settled(s) {
      forall trace | Exec(s, trace).Some?
        ensures Clean(Exec(s, trace).value)
      {
        SettledEndsClean(s, trace);
      }
    } else {
      var trace := UnsettledLeaks(s);
      assert Exec(s, trace).Some?;
    }
  }

  // ------------------------------------------------------------- before quitting

  /** What has to hold just before a quit request, or before the window goes. If the stop will wait,
      only the current backend runs and no recovery is under way. If it will not, no backend runs at
      all, and if the windows then take time to close, nothing waits for a port and no dialog that
      outlives them can lead to a restart. */
  predicate SafeToQuit(s: State, windowStays: bool) {
    if MustWait(s) then
      && (forall i | 0 <= i < |s.tasks.recoveries| :: !Active(s.tasks.recoveries[i]))
      && (forall c | 0 <= c < |s.children| && Alive(s.children[c]) :: s.backendProcess == Some(c))
    else
      && (forall c | 0 <= c < |s.children| :: !Alive(s.children[c]))
      && (windowStays ==>
            && !s.tasks.boot.AwaitingPort?
            && forall i | 0 <= i < |s.tasks.recoveries| ::
                 !s.tasks.recoveries[i].RestartPort? && (s.shell.dialogsOutlive ==> !Active(s.tasks.recoveries[i])))
  }

  /** The state in which a quit request reaches `app.quit()`. */
  function AtRequest(s: State, e: Step): State {
    if e.WindowCloses? then s.(shell := s.shell.(windowOpen := false)) else s
  }

  lemma WaitingStart(s: State)
    requires QuitReady(s) && !s.shell.isQuitting && MustWait(s)
    ensures var t := AppQuit(s);
            !t.shell.appExited && (Settled(t) <==> SafeToQuit(s, s.shell.windowOpen))
  {
    var p, t := s.backendProcess.value, AppQuit(s);
    assert t.children == SendSignal(s.children, p, false);
    assert !s.tasks.boot.AwaitingPort? && !t.shell.closing && StopIs(t, Waiting);
  }

  lemma ImmediateStart(s: State)
    requires QuitReady(s) && !s.shell.isQuitting && !MustWait(s)
    ensures var t := AppQuit(s);
            && StopIs(t, Stopped) && t.children == s.children
            && (t.shell.appExited <==> !s.shell.windowOpen)
            && (if t.shell.appExited then Clean(t) else Settled(t)) == SafeToQuit(s, s.shell.windowOpen)
  {
    var t := AppQuit(s);
    assert s.stops == [];
    assert forall c | 0 <= c < |s.children| :: !s.children[c].killSent;
  }

  lemma {:induction false} NothingAfterExit(s: State, trace: seq<Step>)
    requires s.shell.appExited && trace != []
    ensures Exec(s, trace).None?
  {
    if Init(trace) != [] { NothingAfterExit(s, Init(trace)); }
  }

  lemma ExitedEndsClean(s: State)
    requires s.shell.appExited
    ensures EndsClean(s) <==> Clean(s)
  {
    assert Exec(s, []) == Some(s);
    forall trace | Exec(s, trace).Some? ensures trace == [] {
      if trace != [] { NothingAfterExit(s, trace); }
    }
  }

  ghost predicate StartsWell(s: State) { if s.shell.appExited then Clean(s) else Settled(s) }

  lemma StartDecides(s: State)
    requires Inv(s) && s.shell.isQuitting
    ensures StartsWell(s) <==> EndsClean(s)
  {
    if s.shell.appExited { ExitedEndsClean(s); } else { CleanIffSettled(s); }
  }

  lemma Requested(s: State, e: Step)
    requires Inv(s) && !s.shell.isQuitting && Enabled(s, e) && (e.QuitRequested? || e.WindowCloses?)
    ensures var t := Apply(s, e);
            && Inv(t) && t.shell.isQuitting
            && StartsWell(t) == SafeToQuit(s, s.shell.windowOpen && e.QuitRequested?)
  {
    StepKeepsTasks(s, e);
    StepKeepsStop(s, e);
    var u := AtRequest(s, e);
    assert Apply(s, e) == AppQuit(u) && MustWait(u) == MustWait(s);
    if MustWait(u) { WaitingStart(u); } else { ImmediateStart(u); }
  }

  /** The condition a shutdown needs, in terms of the state before it: after any run, every
      continuation of a quit request, or of closing the window, ends clean if and only if it was safe
      to quit. */
  lemma CleanShutdownIffSafe(dialogsOutlive: bool, trace: seq<Step>, e: Step)
    requires Exec(Initial(dialogsOutlive), trace).Some?
    requires var s := Exec(Initial(dialogsOutlive), trace).value;
             !s.shell.isQuitting && Enabled(s, e) && (e.QuitRequested? || e.WindowCloses?)
    ensures var s := Exec(Initial(dialogsOutlive), trace).value;
            SafeToQuit(s, s.shell.windowOpen && e.QuitRequested?) <==> EndsClean(Apply(s, e))
  {
    var s := Exec(Initial(dialogsOutlive), trace).value;
    RunKeepsInv(Initial(dialogsOutlive), trace);
    Requested(s, e);
    StartDecides(Apply(s, e));
  }

  /** A restart during the grace period: the second look at the process variable finds the newcomer,
      which gets the SIGKILL; the backend that was asked to stop never does. */
  lemma GraceKillsTheNewcomer(s: State, asked: nat, r: nat) returns (trace: seq<Step>)
    requires ShuttingDown(s) && StopIs(s, Waiting) && TaskAt(s, r, RestartPort)
    requires s.backendProcess == Some(asked) && Alive(s.children[asked]) && s.children[asked].termSent
    ensures Exec(s, trace).Some?
    ensures var t := Exec(s, trace).value;
            && StopIs(t, Stopped) && |t.children| == |s.children| + 1
            && t.children[asked] == Child(Running, true, false)
            && t.children[|s.children|] == Child(Running, false, true)
  {
    trace := Extend(s, [], RestartPortFound(r));
    var t := Exec(s, trace).value;
    var u := GraceEnds(t);
    trace := Extend(s, trace, GraceOver(0));
  }

  /** Such a state is reached by quitting while a restart that came up is about to be declared
      failed. */
  lemma GraceRestartHappens() returns (trace: seq<Step>)
    ensures Exec(Initial(false), trace).Some?
    ensures var s := Exec(Initial(false), trace).value;
            && ShuttingDown(s) && StopIs(s, Waiting) && TaskAt(s, 0, RestartPort)
            && s.backendProcess == Some(1) && s.children[1] == Child(Running, true, false)
  {
    trace := FirstRestart(false);
    trace := Extend(Initial(false), trace, QuitRequested);
    trace := Extend(Initial(false), trace, RestartUnhealthy(0));
    trace := Extend(Initial(false), trace, RetryAnswered(0, true));
    RunKeepsInv(Initial(false), trace);
  }

  // -------------------------------------------------------------- tight bounds

  /** For every n there is a run with n failed restart attempts and n + 1 backends alive, so the
      bound on live backends cannot be improved: failed starts really leave their backend running. */
  lemma {:induction false} BackendsPileUp(n: nat, dialogsOutlive: bool) returns (trace: seq<Step>)
    ensures var start := Initial(dialogsOutlive);
            && Exec(start, trace).Some? && FailedRestarts(start, trace) == n
            && var s := Exec(start, trace).value;
               Live(s) == n + 1 && s.tasks.recoveries == [RestartHealth] && !s.shell.appExited && !s.shell.closing
  {
    if n == 0 {
      trace := FirstRestart(dialogsOutlive);
    } else {
      trace := BackendsPileUp(n - 1, dialogsOutlive);
      trace := FailOnce(Initial(dialogsOutlive), trace);
    }
  }

  lemma Booted(start: State) returns (trace: seq<Step>)
    requires start == Initial(start.shell.dialogsOutlive)
    ensures Exec(start, trace).Some? && FailedRestarts(start, trace) == 0
    ensures Exec(start, trace).value
         == State([Child(Running, false, false)], Some(0), false, [], Tasks(true, false, Ready, []),
                  start.shell.(windowOpen := true))
  {
    trace := Extend(start, [], BootBegins);
    trace := Extend(start, trace, BootPortFound);
    trace := Extend(start, trace, BootHealthy);
  }

  lemma FirstCrash(start: State) returns (trace: seq<Step>)
    requires start == Initial(start.shell.dialogsOutlive)
    ensures Exec(start, trace).Some? && FailedRestarts(start, trace) == 0
    ensures Exec(start, trace).value
         == State([Child(ExitedWithCode, false, false)], Some(0), false, [], Tasks(true, true, Ready, [CrashDialog]),
                  start.shell.(windowOpen := true))
  {
    trace := Booted(start);
    trace := Extend(start, trace, ChildExits(0, false));
  }

  lemma FirstRestart(dialogsOutlive: bool) returns (trace: seq<Step>)
    ensures var start := Initial(dialogsOutlive);
            && Exec(start, trace).Some? && FailedRestarts(start, trace) == 0
            && var s := Exec(start, trace).value;
               && Live(s) == 1 && s.tasks.recoveries == [RestartHealth]
               && s.shell == start.shell.(windowOpen := true)
               && s.backendProcess == Some(1) && |s.children| == 2 && s.children[1] == Child(Running, false, false)
  {
    var start := Initial(dialogsOutlive);
    trace := FirstCrash(start);
    var children := Exec(start, trace).value.children;
    trace := Extend(start, trace, CrashAnswered(0, true));
    trace := Extend(start, trace, RestartPortFound(0));
    CountAppend(Alive, children, Child(Running, false, false));
    assert Init(children) == [] && Last(children) == children[0];
  }

  lemma FailOnce(start: State, trace: seq<Step>) returns (longer: seq<Step>)
    requires Exec(start, trace).Some?
    requires var s := Exec(start, trace).value;
             s.tasks.recoveries == [RestartHealth] && !s.shell.appExited && !s.shell.closing
    ensures Exec(start, longer).Some?
    ensures FailedRestarts(start, longer) == FailedRestarts(start, trace) + 1
    ensures var s, t := Exec(start, trace).value, Exec(start, longer).value;
            && Live(t) == Live(s) + 1 && t.tasks.recoveries == [RestartHealth]
            && !t.shell.appExited && !t.shell.closing
  {
    longer := Extend(start, trace, RestartUnhealthy(0));
    longer := Extend(start, longer, RetryAnswered(0, true));
    longer := Extend(start, longer, RestartPortFound(0));
    CountAppend(Alive, Exec(start, trace).value.children, Child(Running, false, false));
  }
}
