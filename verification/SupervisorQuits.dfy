/** When the application quits, and what the process variable and the stop flag say meanwhile. */
module SupervisorQuits {
  import opened Sequences
  import opened Options
  import opened Supervisor
  import opened SupervisorRuns

  /** The application is asked to quit: by the user, by a declined dialog, by its last window going, or
      by a start that failed. */
  predicate AsksToQuit(e: Step) {
    || e.QuitRequested? || e.WindowCloses? || e.BootPortFailed? || e.BootUnhealthy?
    || (e.CrashAnswered? && !e.restart) || (e.RetryAnswered? && !e.retry)
  }

  /** A quit under way: the stop waits for its backend, the windows are closing, or it is over. */
  predicate Ending(s: State) { StopIs(s, Waiting) || s.shell.closing || s.shell.appExited }

  lemma QuietNeverQuits(s: State, e: Step)
    requires Enabled(s, e) && Quiet(e)
    ensures Apply(s, e).shell.isQuitting == s.shell.isQuitting
  {
  }

  /** A step leaves the application quitting if it was, or if the step asks to quit. */
  lemma AskedQuits(s: State, e: Step)
    requires Inv(s) && Enabled(s, e)
    ensures Apply(s, e).shell.isQuitting <==> s.shell.isQuitting || AsksToQuit(e)
  {
    if Quiet(e) { QuietNeverQuits(s, e); }
  }

  lemma QuittingEnds(s: State)
    requires Inv(s) && s.shell.isQuitting
    ensures Ending(s)
  {
  }

  ghost predicate Asked(trace: seq<Step>) { exists i :: 0 <= i < |trace| && AsksToQuit(trace[i]) }

  lemma AskedLater(trace: seq<Step>)
    requires trace != []
    ensures Asked(trace) <==> Asked(Init(trace)) || AsksToQuit(Last(trace))
  {
    assert forall i | 0 <= i < |Init(trace)| :: Init(trace)[i] == trace[i];
  }

  /** Over every run: the application is quitting if and only if some step asked it to, and then its
      stop waits, its windows are closing, or it is gone. */
  lemma QuitsExactlyWhenAsked(dialogsOutlive: bool, trace: seq<Step>)
    requires Exec(Initial(dialogsOutlive), trace).Some?
    ensures var s := Exec(Initial(dialogsOutlive), trace).value;
            && (s.shell.isQuitting <==> Asked(trace))
            && (s.shell.isQuitting ==> Ending(s))
  {
    RunKeepsInv(Initial(dialogsOutlive), trace);
    QuitsIffAsked(dialogsOutlive, trace);
    var s := Exec(Initial(dialogsOutlive), trace).value;
    if s.shell.isQuitting { QuittingEnds(s); }
  }

  lemma {:induction false} QuitsIffAsked(dialogsOutlive: bool, trace: seq<Step>)
    requires Exec(Initial(dialogsOutlive), trace).Some?
    ensures Exec(Initial(dialogsOutlive), trace).value.shell.isQuitting <==> Asked(trace)
  {
    if trace != [] {
      QuitsIffAsked(dialogsOutlive, Init(trace));
      RunKeepsInv(Initial(dialogsOutlive), Init(trace));
      AskedQuits(Exec(Initial(dialogsOutlive), Init(trace)).value, Last(trace));
      AskedLater(trace);
    }
  }

  /** An exit is noticed if and only if some backend has been up, no restart is under way and the
      application is not quitting; then one new recovery starts at its dialog. */
  lemma ExitNoticedIff(s: State, e: Step)
    requires Inv(s) && Enabled(s, e) && e.ChildExits?
    ensures Apply(s, e).tasks.recoveries
         == if s.tasks.boot.Ready? && s.tasks.callbackSet && !s.tasks.isRestarting && !s.shell.isQuitting
            then s.tasks.recoveries + [CrashDialog] else s.tasks.recoveries
  {
  }

  lemma ExecTwo(s: State, e: Step, f: Step)
    requires Enabled(s, e)
    ensures Exec(s, [e]) == Some(Apply(s, e))
    ensures Enabled(Apply(s, e), f) ==> Exec(s, [e, f]) == Some(Apply(Apply(s, e), f))
  {
    assert Init([e]) == [] && Init([e, f]) == [e];
    assert Exec(s, []) == Some(s);
  }

  /** A quit can always be finished: the end of the grace period, then the last window. */
  lemma QuitCanFinish(s: State) returns (trace: seq<Step>)
    requires Inv(s) && s.shell.isQuitting
    ensures Exec(s, trace).Some? && Exec(s, trace).value.shell.appExited
    ensures |trace| <= 2 && forall e | e in trace :: e == GraceOver(0) || e == WindowCloses
  {
    if s.shell.appExited {
      trace := [];
    } else if s.shell.closing {
      trace := [WindowCloses];
      ExecTwo(s, WindowCloses, WindowCloses);
    } else {
      GraceKeepsStop(s, 0);
      ExecTwo(s, GraceOver(0), WindowCloses);
      trace := if Apply(s, GraceOver(0)).shell.appExited then [GraceOver(0)] else [GraceOver(0), WindowCloses];
    }
  }

  /** Whether the stop has to wait is decided by the newest backend alone: one that ended with an exit
      code is done, one that runs or was ended by a signal costs the grace period. */
  lemma StopWaitsIff(s: State, e: Step)
    requires Inv(s) && !s.shell.isQuitting && Enabled(s, e) && AsksToQuit(e)
    ensures StopIs(Apply(s, e), Waiting) <==> s.children != [] && !Last(s.children).life.ExitedWithCode?
    ensures !StopIs(Apply(s, e), Waiting) ==> if Apply(s, e).shell.windowOpen
              then Apply(s, e).shell.closing else Apply(s, e).shell.appExited
  {
  }

  // ------------------------------------------------------- the stop flag and the process variable

  /** While the stop waits, `_isStopping` says whether the current backend is one it was asked to stop;
      once the stop is over the variable is empty or names a backend that came later. */
  ghost predicate FlagsFit(s: State) {
    && (s.isStopping && HasProcess(s) ==>
          var c := s.children[s.backendProcess.value]; c.termSent || !c.life.Running?)
    && (StopIs(s, Waiting) && !s.isStopping && HasProcess(s) ==> !s.children[s.backendProcess.value].termSent)
    && (StopIs(s, Stopped) && HasProcess(s) ==> !s.children[s.backendProcess.value].killSent)
  }

  lemma QuietKeepsFlags(s: State, e: Step)
    requires Inv(s) && FlagsFit(s) && Enabled(s, e) && Quiet(e)
    ensures FlagsFit(Apply(s, e))
  {
  }

  lemma QuitKeepsFlags(s: State)
    requires QuitReady(s) && FlagsFit(s)
    ensures FlagsFit(AppQuit(s))
  {
  }

  lemma StepKeepsFlags(s: State, e: Step)
    requires Inv(s) && FlagsFit(s) && Enabled(s, e)
    ensures FlagsFit(Apply(s, e))
  {
    if Quiet(e) {
      QuietKeepsFlags(s, e);
    } else if e.GraceOver? {
      GraceKeepsStop(s, e.call);
      assert e.call == 0 && EndStop(s, 0).backendProcess.None?;
      QuitKeepsFlags(EndStop(s, 0));
    } else if e.WindowCloses? && s.shell.closing {
    } else {
      QuitKeepsFlags(BeforeAppQuit(s, e));
    }
  }

  lemma {:induction false} FlagsFitAlways(dialogsOutlive: bool, trace: seq<Step>)
    requires Exec(Initial(dialogsOutlive), trace).Some?
    ensures FlagsFit(Exec(Initial(dialogsOutlive), trace).value)
  {
    if trace != [] {
      FlagsFitAlways(dialogsOutlive, Init(trace));
      RunKeepsInv(Initial(dialogsOutlive), Init(trace));
      StepKeepsFlags(Exec(Initial(dialogsOutlive), Init(trace)).value, Last(trace));
    }
  }

  lemma QuitLeavesGone(s: State, c: nat)
    requires c < |s.children| && Gone(s.children[c])
    ensures c < |AppQuit(s).children| && AppQuit(s).children[c] == s.children[c]
  {
  }

  lemma StopLeavesGone(s: State, call: nat, c: nat)
    requires c < |s.children| && Gone(s.children[c]) && call < |s.stops|
    ensures c < |EndStop(s, call).children| && EndStop(s, call).children[c] == s.children[c]
  {
  }

  /** Nothing ever happens to a process that is gone. */
  lemma GoneStaysGone(s: State, e: Step, c: nat)
    requires Enabled(s, e) && c < |s.children| && Gone(s.children[c])
    ensures c < |Apply(s, e).children| && Apply(s, e).children[c] == s.children[c]
  {
    if e.GraceOver? {
      StopLeavesGone(s, e.call, c);
      QuitLeavesGone(EndStop(s, e.call), c);
    } else if !Quiet(e) {
      QuitLeavesGone(BeforeAppQuit(s, e), c);
    }
  }

  /** Until the application is gone, every backend that runs may end, and so all of them may. */
  lemma {:induction false} AllMayEnd(s: State, upTo: nat) returns (trace: seq<Step>, t: State)
    requires !s.shell.appExited && upTo <= |s.children|
    ensures Exec(s, trace) == Some(t) && t.shell == s.shell && |t.children| == |s.children|
    ensures forall c | 0 <= c < upTo :: Gone(t.children[c])
  {
    if upTo == 0 {
      trace, t := [], s;
    } else {
      var before, u := AllMayEnd(s, upTo - 1);
      trace, t := before, u;
      if Alive(u.children[upTo - 1]) {
        trace, t := before + [ChildExits(upTo - 1, false)], Apply(u, ChildExits(upTo - 1, false));
        assert Init(trace) == before;
      }
    }
  }
}
