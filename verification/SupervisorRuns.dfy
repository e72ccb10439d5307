/** What holds of the supervisor over every run and interleaving. */
module SupervisorRuns {
  import opened Sequences
  import opened Supervisor

  // -------------------------------------------------------------- the invariant

  /** A recovery task that may still act. */
  predicate Active(r: Recovery) {
    r.CrashDialog? || r.RestartPort? || r.RestartHealth? || r.RetryDialog?
  }

  /** Whether boot has spawned its backend. */
  function BootSpawns(boot: Boot): nat {
    if boot.AwaitingHealth? || boot.Ready? || boot.FailedHealth? then 1 else 0
  }

  predicate StopIs(s: State, x: Stop) { |s.stops| == 1 && s.stops[0] == x }

  ghost predicate TasksOrdered(s: State) {
    && (forall i | 0 <= i < |s.tasks.recoveries| - 1 :: s.tasks.recoveries[i].Recovered?)
    && (s.tasks.isRestarting <==> s.tasks.recoveries != [] && !Last(s.tasks.recoveries).Recovered?)
    && (s.tasks.recoveries != [] ==> s.tasks.callbackSet)
    && (s.tasks.callbackSet ==> s.tasks.boot.Ready?)
  }

  ghost predicate StopOnce(s: State) {
    && |s.stops| == (if s.shell.isQuitting then 1 else 0)
    && (forall i | 0 <= i < |s.stops| :: !s.stops[i].NullDereference?)
    && (s.isStopping || s.shell.closing || s.shell.appExited ==> s.shell.isQuitting)
    && (StopIs(s, Stopped) ==> s.shell.closing || s.shell.appExited)
    && (s.shell.closing && !s.shell.appExited ==> s.shell.windowOpen)
    && (s.shell.windowOpen || s.shell.isQuitting || s.tasks.boot.NotStarted?)
    && (s.shell.windowOpen ==> !s.tasks.boot.NotStarted?)
  }

  ghost predicate ProcessCurrent(s: State) {
    && (s.backendProcess.Some? ==> s.backendProcess.value == |s.children| - 1 >= 0)
    && (StopIs(s, Waiting) ==> s.backendProcess.Some?)
    && (s.children != [] && !s.shell.isQuitting ==> s.backendProcess.Some?)
    && (BootSpawns(s.tasks.boot) == 0 ==> s.children == [])
  }

  ghost predicate SignalsLate(s: State) {
    && (forall c | 0 <= c < |s.children| ::
          (s.children[c].termSent ==> s.shell.isQuitting) && (s.children[c].killSent ==> StopIs(s, Stopped)))
  }

  ghost predicate Inv(s: State) { TasksOrdered(s) && StopOnce(s) && ProcessCurrent(s) && SignalsLate(s) }

  /** What a quit request leaves alone. */
  ghost predicate SameTasks(s: State, t: State) {
    && t.tasks == s.tasks && |t.children| == |s.children|
    && forall c | 0 <= c < |s.children| :: t.children[c].life == s.children[c].life
  }

  lemma QuitKeepsTasks(s: State)
    ensures SameTasks(s, AppQuit(s))
  {
  }

  /** The same for a stop that ends, before it calls `app.quit()`. */
  lemma StopKeepsTasks(s: State, call: nat)
    requires call < |s.stops|
    ensures SameTasks(s, EndStop(s, call))
  {
    if HasProcess(s) {
      var signalled := SendSignal(s.children, s.backendProcess.value, true);
      assert EndStop(s, call).children == signalled;
    }
  }

  /** The step up to its call of `app.quit()`, if it makes one. */
  function BeforeAppQuit(s: State, e: Step): State
    requires Enabled(s, e)
  {
    match e
    case BootPortFailed => MoveBoot(s, FailedBeforeSpawn)
    case BootUnhealthy => MoveBoot(s, FailedHealth)
    case CrashAnswered(task, restart) => MoveTask(s, task, if restart then RestartPort else QuitChosen)
    case RetryAnswered(task, retry) => MoveTask(s, task, if retry then RestartPort else QuitChosen)
    case WindowCloses => s.(shell := s.shell.(windowOpen := false))
    case QuitRequested => s
    case GraceOver(call) => EndStop(s, call)
    case _ => Apply(s, e)
  }

  lemma StepSplits(s: State, e: Step)
    requires Enabled(s, e)
    ensures SameTasks(BeforeAppQuit(s, e), Apply(s, e))
  {
    QuitKeepsTasks(BeforeAppQuit(s, e));
  }

  lemma OnlyExitsOpenRecoveries(s: State, e: Step)
    requires Enabled(s, e) && !e.ChildExits?
    ensures |Apply(s, e).tasks.recoveries| == |s.tasks.recoveries|
  {
    StepSplits(s, e);
  }

  lemma StepKeepsTasks(s: State, e: Step)
    requires Inv(s) && Enabled(s, e)
    ensures TasksOrdered(Apply(s, e))
  {
    StepSplits(s, e);
    TasksBeforeQuit(s, e);
  }

  lemma ExitKeepsTasks(s: State, e: Step)
    requires TasksOrdered(s) && Enabled(s, e) && e.ChildExits?
    ensures TasksOrdered(Apply(s, e))
  {
  }

  lemma TasksBeforeQuit(s: State, e: Step)
    requires TasksOrdered(s) && Enabled(s, e)
    ensures TasksOrdered(BeforeAppQuit(s, e))
  {
    if e.ChildExits? { ExitKeepsTasks(s, e); }
  }

  /** The invariant as a step finds it when it calls `app.quit()`: a stop may just have ended, or the
      window just have gone. */
  ghost predicate QuitReady(s: State) {
    && |s.stops| == (if s.shell.isQuitting then 1 else 0)
    && (forall i | 0 <= i < |s.stops| :: !s.stops[i].NullDereference?)
    && (s.isStopping || s.shell.closing ==> s.shell.isQuitting)
    && !s.shell.appExited && (s.shell.closing ==> s.shell.windowOpen)
    && (s.shell.windowOpen ==> !s.tasks.boot.NotStarted?)
    && (s.backendProcess.Some? ==> s.backendProcess.value == |s.children| - 1 >= 0)
    && (StopIs(s, Waiting) ==> s.backendProcess.Some?)
    && (s.children != [] && !s.shell.isQuitting ==> s.backendProcess.Some?)
    && (BootSpawns(s.tasks.boot) == 0 ==> s.children == [])
    && SignalsLate(s)
  }

  lemma QuitKeepsInv(s: State)
    requires QuitReady(s)
    ensures StopInv(AppQuit(s))
  {
  }

  /** Steps that never call `app.quit()`. */
  predicate Quiet(e: Step) {
    || e.BootBegins? || e.BootPortFound? || e.BootHealthy? || e.ChildExits?
    || e.RestartPortFound? || e.RestartPortFailed? || e.RestartHealthy? || e.RestartUnhealthy?
    || (e.CrashAnswered? && e.restart) || (e.RetryAnswered? && e.retry)
  }

  ghost predicate StopInv(s: State) { StopOnce(s) && ProcessCurrent(s) && SignalsLate(s) }

  lemma QuietKeepsStop(s: State, e: Step)
    requires Inv(s) && Enabled(s, e) && Quiet(e)
    ensures StopOnce(Apply(s, e)) && SignalsLate(Apply(s, e))
  {
  }

  lemma QuietKeepsProcess(s: State, e: Step)
    requires Inv(s) && Enabled(s, e) && Quiet(e)
    ensures ProcessCurrent(Apply(s, e))
  {
  }

  lemma QuittingKeepsStop(s: State, e: Step)
    requires Inv(s) && Enabled(s, e) && !Quiet(e) && !e.GraceOver?
    ensures StopInv(Apply(s, e))
  {
    if e.WindowCloses? && s.shell.closing {
    } else {
      QuitKeepsInv(BeforeAppQuit(s, e));
    }
  }

  lemma StepKeepsStop(s: State, e: Step)
    requires Inv(s) && Enabled(s, e)
    ensures StopInv(Apply(s, e))
  {
    if Quiet(e) {
      QuietKeepsStop(s, e);
      QuietKeepsProcess(s, e);
    } else if e.GraceOver? {
      GraceKeepsStop(s, e.call);
    } else {
      QuittingKeepsStop(s, e);
    }
  }

  /** The second half of a stop finds its process, whatever a restart did to it meanwhile. */
  lemma GraceKeepsStop(s: State, call: nat)
    requires Inv(s) && Enabled(s, GraceOver(call))
    ensures HasProcess(s) && StopInv(Apply(s, GraceOver(call)))
  {
    assert call == 0 && StopIs(s, Waiting);
    QuitKeepsInv(EndStop(s, call));
  }

  lemma {:induction false} RunKeepsInv(s: State, trace: seq<Step>)
    requires Inv(s) && Exec(s, trace).Some?
    ensures Inv(Exec(s, trace).value)
  {
    if trace != [] {
      RunKeepsInv(s, Init(trace));
      var t := Exec(s, Init(trace)).value;
      StepKeepsTasks(t, Last(trace));
      StepKeepsStop(t, Last(trace));
    }
  }

  // ------------------------------------------------------------- safety results

  lemma OnlyLastActive(recoveries: seq<Recovery>)
    requires forall i | 0 <= i < |recoveries| - 1 :: recoveries[i].Recovered?
    ensures forall i | 0 <= i < |recoveries| && Active(recoveries[i]) ::
              i == |recoveries| - 1 && !Last(recoveries).Recovered?
  {
  }

  /** In every reachable state at most one recovery is past its guard and unfinished, and then
      `_isRestarting` is set; the callback is registered only after a successful start. */
  lemma OneRecoveryAtATime(dialogsOutlive: bool, trace: seq<Step>)
    requires Exec(Initial(dialogsOutlive), trace).Some?
    ensures var tasks := Exec(Initial(dialogsOutlive), trace).value.tasks;
            && (forall i, j | 0 <= i < |tasks.recoveries| && 0 <= j < |tasks.recoveries| ::
                  Active(tasks.recoveries[i]) && Active(tasks.recoveries[j]) ==> i == j && tasks.isRestarting)
            && (tasks.callbackSet ==> tasks.boot.Ready?)
  {
    RunKeepsInv(Initial(dialogsOutlive), trace);
    OnlyLastActive(Exec(Initial(dialogsOutlive), trace).value.tasks.recoveries);
  }

  /** `stopBackend` runs at most once, only while quitting, and never finds its process variable
      cleared when its wait is over, whatever a restart did to it meanwhile. */
  lemma StopIsSafe(dialogsOutlive: bool, trace: seq<Step>)
    requires Exec(Initial(dialogsOutlive), trace).Some?
    ensures var s := Exec(Initial(dialogsOutlive), trace).value;
            && |s.stops| <= 1 && (s.stops != [] <==> s.shell.isQuitting) && (s.isStopping ==> s.shell.isQuitting)
            && NullDereference !in s.stops
  {
    RunKeepsInv(Initial(dialogsOutlive), trace);
  }

  /** An exit seen while a restart is under way, or after quitting began, opens no recovery. */
  lemma NoSecondRecovery(s: State, e: Step)
    requires Enabled(s, e) && (s.tasks.isRestarting || s.shell.isQuitting)
    ensures |Apply(s, e).tasks.recoveries| == |s.tasks.recoveries|
  {
    if !e.ChildExits? { OnlyExitsOpenRecoveries(s, e); }
  }

  /** Quitting is for good: from then on no run opens another recovery. */
  lemma {:induction false} NoRecoveryWhileQuitting(s: State, trace: seq<Step>)
    requires s.shell.isQuitting && Exec(s, trace).Some?
    ensures Exec(s, trace).value.shell.isQuitting
    ensures |Exec(s, trace).value.tasks.recoveries| == |s.tasks.recoveries|
  {
    if trace != [] {
      NoRecoveryWhileQuitting(s, Init(trace));
      NoSecondRecovery(Exec(s, Init(trace)).value, Last(trace));
    }
  }

  // ---------------------------------------------------------- counting backends

  /** A recovery whose latest attempt spawned a backend that has not failed. */
  predicate Holds(r: Recovery) { r.RestartHealth? || r.Recovered? }

  function Holding(s: State): nat { Count(Holds, s.tasks.recoveries) }

  predicate FailsAttempt(s: State, e: Step) {
    e.RestartUnhealthy? || (e.RestartHealthy? && !s.shell.windowOpen)
  }

  /** Every backend is accounted for: boot's, one per failed restart attempt, one per recovery that
      is not in a failed state; and every recovery consumed an exit of its own. */
  ghost predicate Accounted(s: State, failures: nat) {
    && |s.children| == BootSpawns(s.tasks.boot) + failures + Holding(s)
    && |s.tasks.recoveries| <= Exited(s)
  }

  /** The step moves the books of spawned backends evenly. */
  ghost predicate Balanced(s: State, e: Step)
    requires Enabled(s, e)
  {
    var t := Apply(s, e);
    |t.children| - BootSpawns(t.tasks.boot) - Holding(t)
    == |s.children| - BootSpawns(s.tasks.boot) - Holding(s) + if FailsAttempt(s, e) then 1 else 0
  }

  /** The books are about tasks only, so `app.quit()` does not move them. */
  lemma TasksDecideBooks(s: State, t: State)
    requires SameTasks(s, t)
    ensures |t.children| - BootSpawns(t.tasks.boot) - Holding(t) == |s.children| - BootSpawns(s.tasks.boot) - Holding(s)
    ensures Exited(t) == Exited(s)
  {
    SameLivesCount(s.children, t.children);
  }

  lemma {:induction false} SameLivesCount(a: seq<Child>, b: seq<Child>)
    requires |a| == |b| && forall c | 0 <= c < |a| :: a[c].life == b[c].life
    ensures Count(Gone, a) == Count(Gone, b) && Count(Alive, a) == Count(Alive, b)
  {
    if a != [] { SameLivesCount(Init(a), Init(b)); }
  }

  /** One recovery moves on. */
  lemma TaskBalances(s: State, e: Step, task: nat, r: Recovery)
    requires Enabled(s, e) && task < |s.tasks.recoveries|
    requires BeforeAppQuit(s, e).tasks.recoveries == s.tasks.recoveries[task := r]
    requires BeforeAppQuit(s, e).tasks.boot == s.tasks.boot
    requires |BeforeAppQuit(s, e).children| == |s.children| + if e.RestartPortFound? then 1 else 0
    requires (if Holds(r) then 1 else 0) - (if Holds(s.tasks.recoveries[task]) then 1 else 0)
          == (if e.RestartPortFound? then 1 else 0) - (if FailsAttempt(s, e) then 1 else 0)
    ensures Balanced(s, e)
  {
    CountUpdate(Holds, s.tasks.recoveries, task, r);
    StepSplits(s, e);
    TasksDecideBooks(BeforeAppQuit(s, e), Apply(s, e));
  }

  lemma ExitsBalance(s: State, e: Step)
    requires Enabled(s, e) && e.ChildExits?
    ensures Balanced(s, e)
  {
    CountAppend(Holds, s.tasks.recoveries, CrashDialog);
  }

  lemma QuitsBalance(s: State, e: Step)
    requires Enabled(s, e)
    requires e.BootPortFailed? || e.BootUnhealthy? || e.QuitRequested? || e.GraceOver? || e.WindowCloses?
    ensures Balanced(s, e)
  {
    if e.GraceOver? { StopKeepsTasks(s, e.call); }
    StepSplits(s, e);
    TasksDecideBooks(BeforeAppQuit(s, e), Apply(s, e));
  }

  lemma AnswersBalance(s: State, e: Step)
    requires Enabled(s, e) && (e.CrashAnswered? || e.RetryAnswered?)
    ensures Balanced(s, e)
  {
    var accepted := if e.CrashAnswered? then e.restart else e.retry;
    TaskBalances(s, e, e.task, if accepted then RestartPort else QuitChosen);
  }

  lemma PortsBalance(s: State, e: Step)
    requires Enabled(s, e) && (e.RestartPortFound? || e.RestartPortFailed?)
    ensures Balanced(s, e)
  {
    TaskBalances(s, e, e.task, if e.RestartPortFound? then RestartHealth else RetryDialog);
  }

  lemma OutcomesBalance(s: State, e: Step)
    requires Enabled(s, e) && (e.RestartHealthy? || e.RestartUnhealthy?)
    ensures Balanced(s, e)
  {
    TaskBalances(s, e, e.task, if FailsAttempt(s, e) then RetryDialog else Recovered);
  }

  lemma BootBalances(s: State, e: Step)
    requires Enabled(s, e) && (e.BootBegins? || e.BootPortFound? || e.BootHealthy?)
    ensures Balanced(s, e)
  {
  }

  /** Every step moves the books of spawned backends evenly. */
  lemma StepBalances(s: State, e: Step)
    requires Enabled(s, e)
    ensures Balanced(s, e)
  {
    match e
    case CrashAnswered(_, _) => AnswersBalance(s, e);
    case RetryAnswered(_, _) => AnswersBalance(s, e);
    case RestartPortFound(_) => PortsBalance(s, e);
    case RestartPortFailed(_) => PortsBalance(s, e);
    case RestartHealthy(_) => OutcomesBalance(s, e);
    case RestartUnhealthy(_) => OutcomesBalance(s, e);
    case ChildExits(_, _) => ExitsBalance(s, e);
    case BootBegins => BootBalances(s, e);
    case BootPortFound => BootBalances(s, e);
    case BootHealthy => BootBalances(s, e);
    case _ => QuitsBalance(s, e);
  }

  lemma ChildExitsMoveExits(s: State, e: Step)
    requires Enabled(s, e) && e.ChildExits?
    ensures Exited(Apply(s, e)) == Exited(s) + 1 && |Apply(s, e).tasks.recoveries| <= |s.tasks.recoveries| + 1
  {
    var gone := s.children[e.child].(life := if e.bySignal then ExitedBySignal else ExitedWithCode);
    CountUpdate(Gone, s.children, e.child, gone);
  }

  /** Only an exit event adds an exit, and only an exit event can add a recovery. */
  lemma StepMovesExits(s: State, e: Step)
    requires Enabled(s, e)
    ensures Exited(Apply(s, e)) == Exited(s) + if e.ChildExits? then 1 else 0
    ensures |Apply(s, e).tasks.recoveries| <= |s.tasks.recoveries| + if e.ChildExits? then 1 else 0
  {
    if e.ChildExits? {
      ChildExitsMoveExits(s, e);
    } else {
      OnlyExitsOpenRecoveries(s, e);
      StepSplits(s, e);
      TasksDecideBooks(BeforeAppQuit(s, e), Apply(s, e));
      if e.GraceOver? {
        StopKeepsTasks(s, e.call);
        TasksDecideBooks(s, BeforeAppQuit(s, e));
      }
      CountAppend(Gone, s.children, Child(Running, false, false));
    }
  }

  lemma {:induction false} RunAccounts(dialogsOutlive: bool, trace: seq<Step>)
    requires Exec(Initial(dialogsOutlive), trace).Some?
    ensures Accounted(Exec(Initial(dialogsOutlive), trace).value, FailedRestarts(Initial(dialogsOutlive), trace))
  {
    if trace != [] {
      RunAccounts(dialogsOutlive, Init(trace));
      var before := Exec(Initial(dialogsOutlive), Init(trace)).value;
      StepBalances(before, Last(trace));
      StepMovesExits(before, Last(trace));
    }
  }

  lemma {:induction false} AliveOrGone(children: seq<Child>)
    ensures Count(Alive, children) + Count(Gone, children) == |children|
  {
    if children != [] { AliveOrGone(Init(children)); }
  }

  /** In every run, at most one backend is alive besides those left behind by failed restart
      attempts, and recoveries never outnumber exits. */
  lemma LiveBackendsBounded(dialogsOutlive: bool, trace: seq<Step>)
    requires Exec(Initial(dialogsOutlive), trace).Some?
    ensures var s := Exec(Initial(dialogsOutlive), trace).value;
            Live(s) <= 1 + FailedRestarts(Initial(dialogsOutlive), trace) && |s.tasks.recoveries| <= Exited(s)
  {
    var s := Exec(Initial(dialogsOutlive), trace).value;
    RunAccounts(dialogsOutlive, trace);
    AliveOrGone(s.children);
    CountAll(Holds, s.tasks.recoveries);
  }
}
