/** The desktop supervisor as a transition system: the code between two `await`s is one step, and
    steps of the startup, crash recovery and quit tasks interleave freely. `app.quit()` is part of
    the step that calls it: it emits `before-quit` at once, and once that is no longer prevented the
    windows close, while which other steps still happen, and with the last window the process exits. */
module Supervisor {
  import opened Sequences
  import opened Options

  /** `exitCode` is null while a process runs and stays null when a signal ended it. */
  datatype Life = Running | ExitedWithCode | ExitedBySignal

  datatype Child = Child(life: Life, termSent: bool, killSent: bool)

  /** The `whenReady` task, by the `await` it is at. */
  datatype Boot = NotStarted | AwaitingPort | AwaitingHealth | Ready | FailedBeforeSpawn | FailedHealth

  /** One call of `handleBackendCrash` that got past its guard. */
  datatype Recovery = CrashDialog | RestartPort | RestartHealth | RetryDialog | Recovered | QuitChosen

  /** One call of `stopBackend`. */
  datatype Stop = Waiting | Stopped | NullDereference

  /** The startup and recovery tasks of main.js. */
  datatype Tasks = Tasks(
    callbackSet: bool,
    isRestarting: bool,
    boot: Boot,
    recoveries: seq<Recovery>)     // every recovery ever opened

  /** What the application shell knows about quitting. */
  datatype Shell = Shell(
    windowOpen: bool,
    isQuitting: bool,
    closing: bool,                 // `before-quit` was let through: the windows are closing
    appExited: bool,
    dialogsOutlive: bool)          // whether a dialog can still be answered while the windows close

  datatype State = State(
    children: seq<Child>,          // every process ever spawned
    backendProcess: Option<nat>,
    isStopping: bool,
    stops: seq<Stop>,              // every call of stopBackend
    tasks: Tasks,
    shell: Shell)

  /** The last field is up to the platform and never changes; the results hold for both values. */
  function Initial(dialogsOutlive: bool): State {
    State([], None, false, [], Tasks(false, false, NotStarted, []), Shell(false, false, false, false, dialogsOutlive))
  }

  datatype Step =
    | BootBegins
    | BootPortFound | BootPortFailed
    | BootHealthy | BootUnhealthy
    | ChildExits(child: nat, bySignal: bool)
    | CrashAnswered(task: nat, restart: bool)
    | RestartPortFound(task: nat) | RestartPortFailed(task: nat)
    | RestartHealthy(task: nat) | RestartUnhealthy(task: nat)
    | RetryAnswered(task: nat, retry: bool)
    | WindowCloses
    | QuitRequested               // by the menu or the system
    | GraceOver(call: nat)

  predicate TaskAt(s: State, task: nat, r: Recovery) {
    task < |s.tasks.recoveries| && s.tasks.recoveries[task] == r
  }

  predicate IsRunning(s: State, child: nat) {
    child < |s.children| && s.children[child].life.Running?
  }

  /** A dialog going away with its window counts as declined. */
  predicate CanAnswer(s: State, accepted: bool) { accepted && s.shell.closing ==> s.shell.dialogsOutlive }

  predicate Enabled(s: State, e: Step) {
    && !s.shell.appExited
    && match e
       case BootBegins => s.tasks.boot.NotStarted?
       case BootPortFound => s.tasks.boot.AwaitingPort?
       case BootPortFailed => s.tasks.boot.AwaitingPort?
       case BootHealthy => s.tasks.boot.AwaitingHealth?
       case BootUnhealthy => s.tasks.boot.AwaitingHealth?
       case ChildExits(child, _) => IsRunning(s, child)
       case CrashAnswered(task, restart) => TaskAt(s, task, CrashDialog) && CanAnswer(s, restart)
       case RestartPortFound(task) => TaskAt(s, task, RestartPort)
       case RestartPortFailed(task) => TaskAt(s, task, RestartPort)
       case RestartHealthy(task) => TaskAt(s, task, RestartHealth)
       case RestartUnhealthy(task) => TaskAt(s, task, RestartHealth)
       case RetryAnswered(task, retry) => TaskAt(s, task, RetryDialog) && CanAnswer(s, retry)
       case WindowCloses => s.shell.windowOpen
       case QuitRequested => true
       case GraceOver(call) => call < |s.stops| && s.stops[call].Waiting?
  }

  /** `startBackend` from the free port to the health wait. */
  function Spawn(s: State): State {
    s.(isStopping := false,
       children := s.children + [Child(Running, false, false)],
       backendProcess := Some(|s.children|))
  }

  /** `handleBackendCrash` up to its first dialog. */
  function HandleCrash(s: State): State {
    if s.shell.isQuitting || s.tasks.isRestarting then s
    else s.(tasks := s.tasks.(isRestarting := true, recoveries := s.tasks.recoveries + [CrashDialog]))
  }

  /** The exit handler of a child. */
  function ChildExit(s: State, child: nat, bySignal: bool): State
    requires IsRunning(s, child)
  {
    var gone := s.children[child].(life := if bySignal then ExitedBySignal else ExitedWithCode);
    var t := s.(children := s.children[child := gone]);
    if !s.isStopping && s.tasks.callbackSet then HandleCrash(t) else t
  }

  function MoveBoot(s: State, boot: Boot): State { s.(tasks := s.tasks.(boot := boot)) }

  function MoveTask(s: State, task: nat, r: Recovery): State
    requires task < |s.tasks.recoveries|
  {
    s.(tasks := s.tasks.(recoveries := s.tasks.recoveries[task := r]))
  }

  /** A restart whose backend came up: with the window gone, `loadURL` throws inside the `try` and
      the attempt counts as failed, its backend still running. */
  function FinishRestart(s: State, task: nat): State
    requires task < |s.tasks.recoveries|
  {
    var recoveries := s.tasks.recoveries;
    if s.shell.windowOpen
    then s.(tasks := Tasks(true, false, s.tasks.boot, recoveries[task := Recovered]))
    else s.(tasks := s.tasks.(callbackSet := true, recoveries := recoveries[task := RetryDialog]))
  }

  /** The process variable is set. (A set variable always refers to a spawned child; the bound
      only makes the definitions below total.) */
  predicate HasProcess(s: State) {
    s.backendProcess.Some? && s.backendProcess.value < |s.children|
  }

  /** A signal reaches a child that still runs; it never ends one within the step. */
  function SendSignal(children: seq<Child>, p: nat, kill: bool): (r: seq<Child>)
    requires p < |children|
    ensures |r| == |children| && forall c | 0 <= c < |r| :: r[c].life == children[c].life
    ensures forall c | 0 <= c < |r| && c != p :: r[c] == children[c]
  {
    if !children[p].life.Running? then children
    else if kill then children[p := children[p].(killSent := true)]
    else children[p := children[p].(termSent := true)]
  }

  /** `stopBackend` finds a process without an exit code, which is also what a signal leaves. */
  predicate MustWait(s: State) {
    HasProcess(s) && !s.children[s.backendProcess.value].life.ExitedWithCode?
  }

  /** `stopBackend` up to its wait; it reads the process variable as it is now. */
  function BeginStop(s: State): State {
    if !MustWait(s) then s.(stops := s.stops + [Stopped])
    else
      var p := s.backendProcess.value;
      s.(isStopping := true,
         children := SendSignal(s.children, p, false),
         stops := s.stops + [Waiting])
  }

  /** `before-quit` was not prevented. */
  function CloseWindows(s: State): State {
    s.(shell := if s.shell.windowOpen then s.shell.(closing := true) else s.shell.(appExited := true))
  }

  /** `app.quit()`. The first call is prevented and starts the stop; a stop that need not wait ends,
      and calls `app.quit()` again, before anything else happens. */
  function AppQuit(s: State): State {
    if s.shell.closing then s
    else if s.shell.isQuitting then CloseWindows(s)
    else
      var t := BeginStop(s.(shell := s.shell.(isQuitting := true)));
      if MustWait(s) then t else CloseWindows(t)
  }

  /** `stopBackend` after its wait; it reads the process variable again. */
  function EndStop(s: State, call: nat): State
    requires call < |s.stops|
  {
    if !HasProcess(s)
    then s.(stops := s.stops[call := NullDereference])
    else
      var p := s.backendProcess.value;
      s.(children := SendSignal(s.children, p, true),
         backendProcess := None,
         stops := s.stops[call := Stopped])
  }

  function Apply(s: State, e: Step): State
    requires Enabled(s, e)
  {
    match e
    case BootBegins => s.(tasks := s.tasks.(boot := AwaitingPort), shell := s.shell.(windowOpen := true))
    case BootPortFound => MoveBoot(Spawn(s), AwaitingHealth)
    case BootPortFailed => AppQuit(MoveBoot(s, FailedBeforeSpawn))
    case BootHealthy => s.(tasks := s.tasks.(boot := Ready, callbackSet := true))
    case BootUnhealthy => AppQuit(MoveBoot(s, FailedHealth))
    case ChildExits(child, bySignal) => ChildExit(s, child, bySignal)
    case CrashAnswered(task, restart) =>
      if restart then MoveTask(s, task, RestartPort) else AppQuit(MoveTask(s, task, QuitChosen))
    case RestartPortFound(task) => MoveTask(Spawn(s), task, RestartHealth)
    case RestartPortFailed(task) => MoveTask(s, task, RetryDialog)
    case RestartHealthy(task) => FinishRestart(s, task)
    case RestartUnhealthy(task) => MoveTask(s, task, RetryDialog)
    case RetryAnswered(task, retry) =>
      if retry then MoveTask(s, task, RestartPort) else AppQuit(MoveTask(s, task, QuitChosen))
    case WindowCloses =>
      var t := s.(shell := s.shell.(windowOpen := false));
      if s.shell.closing then t.(shell := t.shell.(appExited := true)) else AppQuit(t)
    case QuitRequested => AppQuit(s)
    case GraceOver(call) => AppQuit(EndStop(s, call))
  }

  /** The state after a run, if every step of it was enabled. */
  function Exec(s: State, trace: seq<Step>): Option<State> {
    if trace == [] then Some(s)
    else
      var before := Exec(s, Init(trace));
      if before.Some? && Enabled(before.value, Last(trace)) then Some(Apply(before.value, Last(trace))) else None
  }

  /** Restart attempts that spawned a backend and still failed. A failed attempt shows in the state:
      the backend never became healthy, or it did and the window was gone. */
  function FailedRestarts(s: State, trace: seq<Step>): nat {
    if trace == [] then 0
    else
      var before := Exec(s, Init(trace));
      var failed := Last(trace).RestartUnhealthy?
                    || (Last(trace).RestartHealthy? && before.Some? && !before.value.shell.windowOpen);
      FailedRestarts(s, Init(trace)) + if failed then 1 else 0
  }

  predicate Alive(c: Child) { c.life.Running? }
  predicate Gone(c: Child) { !c.life.Running? }

  function Live(s: State): nat { Count(Alive, s.children) }

  function Exited(s: State): nat { Count(Gone, s.children) }
}
