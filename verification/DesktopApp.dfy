/** The supervisor in its own form: module variables and the handlers that update them. A ghost trace
    records the protocol step of every handler call, so that whatever holds of every run holds of
    these variables after any sequence of calls. */
module DesktopApp {
  import opened Sequences
  import opened Options
  import opened Supervisor
  import opened SupervisorRuns
  import opened SupervisorQuits

  class App {
    // backend-manager.js
    var backendProcess: Option<nat>
    var isStopping: bool
    var callbackSet: bool
    // main.js
    var windowOpen: bool
    var isQuitting: bool
    var isRestarting: bool
    // Electron: the processes, where each asynchronous function waits, and how far quitting is
    var children: seq<Child>
    var boot: Boot
    var recoveries: seq<Recovery>
    var stops: seq<Stop>
    var closing: bool
    var appExited: bool
    const dialogsOutlive: bool
    // every handler call so far
    ghost var trace: seq<Step>

    ghost function View(): State
      reads this
    {
      State(children, backendProcess, isStopping, stops, Tasks(callbackSet, isRestarting, boot, recoveries),
            Shell(windowOpen, isQuitting, closing, appExited, dialogsOutlive))
    }

    ghost predicate Valid()
      reads this
    {
      Exec(Initial(dialogsOutlive), trace) == Some(View())
    }

    /** The process variable, when set, names a process. */
    predicate Indexed()
      reads this
    {
      backendProcess.Some? ==> backendProcess.value < |children|
    }

    lemma Invariant()
      requires Valid()
      ensures Inv(View()) && Indexed()
    {
      RunKeepsInv(Initial(dialogsOutlive), trace);
    }

    /** What the variables promise after any calls: one recovery at a time, one stop and only while
        quitting, quitting exactly when something asked for it, and at most one live backend besides
        those of failed restart attempts. */
    lemma Promises()
      requires Valid()
      ensures forall i, j | 0 <= i < |recoveries| && 0 <= j < |recoveries| ::
                Active(recoveries[i]) && Active(recoveries[j]) ==> i == j && isRestarting
      ensures |stops| <= 1 && (stops != [] <==> isQuitting) && (isStopping ==> isQuitting)
      ensures Count(Alive, children) <= 1 + FailedRestarts(Initial(dialogsOutlive), trace)
      ensures |recoveries| <= Count(Gone, children)
      ensures isQuitting <==> exists i :: 0 <= i < |trace| && AsksToQuit(trace[i])
    {
      QuitsExactlyWhenAsked(dialogsOutlive, trace);
      OneRecoveryAtATime(dialogsOutlive, trace);
      StopIsSafe(dialogsOutlive, trace);
      LiveBackendsBounded(dialogsOutlive, trace);
    }

    ghost method Record(before: State, e: Step)
      requires Exec(Initial(dialogsOutlive), trace) == Some(before)
      requires Enabled(before, e) && View() == Apply(before, e)
      modifies this`trace
      ensures Valid() && trace == old(trace) + [e] && View() == old(View())
    {
      trace := trace + [e];
      assert Init(trace) == old(trace);
    }

    constructor (dialogsOutlive: bool)
      ensures Valid() && View() == Initial(dialogsOutlive) && trace == []
    {
      backendProcess, isStopping, callbackSet := None, false, false;
      windowOpen, isQuitting, isRestarting := false, false, false;
      children, boot, recoveries, stops := [], NotStarted, [], [];
      closing, appExited, trace := false, false, [];
      this.dialogsOutlive := dialogsOutlive;
    }

    // ------------------------------------------------------------ backend-manager

    /** `startBackend` once `findFreePort` has answered. */
    method SpawnBackend()
      modifies this`isStopping, this`children, this`backendProcess
      ensures View() == Spawn(old(View()))
    {
      isStopping := false;
      children := children + [Child(Running, false, false)];
      backendProcess := Some(|children| - 1);
    }

    method Signal(child: nat, kill: bool)
      requires child < |children|
      modifies this`children
      ensures children == SendSignal(old(children), child, kill)
    {
      if children[child].life.Running? {
        children := children[child := if kill then children[child].(killSent := true)
                                      else children[child].(termSent := true)];
      }
    }

    /** The `exit` event of a child process. */
    method OnExit(child: nat, bySignal: bool)
      requires Valid() && Enabled(View(), ChildExits(child, bySignal))
      modifies this`children, this`isRestarting, this`recoveries, this`trace
      ensures Valid() && trace == old(trace) + [ChildExits(child, bySignal)]
      ensures View() == Apply(old(View()), ChildExits(child, bySignal))
    {
      ghost var before := View();
      children := children[child := children[child].(life := if bySignal then ExitedBySignal else ExitedWithCode)];
      if !isStopping && callbackSet {
        HandleBackendCrash();
      }
      Record(before, ChildExits(child, bySignal));
    }

    /** `stopBackend` up to its wait, if it waits. */
    method StopBackend() returns (waits: bool)
      requires Indexed()
      modifies this`isStopping, this`children, this`stops
      ensures View() == BeginStop(old(View())) && waits == MustWait(old(View()))
    {
      if backendProcess.None? || children[backendProcess.value].life.ExitedWithCode? {
        stops := stops + [Stopped];
        return false;
      }
      isStopping := true;
      Signal(backendProcess.value, false);
      stops := stops + [Waiting];
      return true;
    }

    /** `stopBackend` after its wait. The process variable is read again without a check. */
    method FinishStop(call: nat)
      requires backendProcess.Some? && Indexed() && call < |stops|
      modifies this`children, this`backendProcess, this`stops
      ensures View() == EndStop(old(View()), call)
    {
      if !children[backendProcess.value].life.ExitedWithCode? {
        Signal(backendProcess.value, true);
      }
      backendProcess := None;
      stops := stops[call := Stopped];
    }

    /** The exit event or the five-second timer ends the wait; `app.quit()` follows. */
    method OnGraceOver(call: nat)
      requires Valid() && Enabled(View(), GraceOver(call))
      modifies this`children, this`backendProcess, this`stops, this`isQuitting, this`isStopping,
               this`closing, this`appExited, this`trace
      ensures Valid() && trace == old(trace) + [GraceOver(call)]
      ensures View() == Apply(old(View()), GraceOver(call))
    {
      ghost var before := View();
      Invariant();
      GraceKeepsStop(View(), call);
      FinishStop(call);
      Quit();
      Record(before, GraceOver(call));
    }

    // --------------------------------------------------------------------- main

    /** `app.quit()`: emits `before-quit`, and closes the windows unless that was prevented. */
    method Quit()
      requires Indexed()
      modifies this`isQuitting, this`isStopping, this`children, this`stops, this`closing, this`appExited
      ensures View() == AppQuit(old(View()))
      decreases if isQuitting then 0 else 1, 1
    {
      if closing { return; }
      var prevented := OnBeforeQuit();
      if !prevented {
        if windowOpen { closing := true; } else { appExited := true; }
      }
    }

    /** The `before-quit` handler, with the `finally` of a stop that need not wait. */
    method OnBeforeQuit() returns (prevented: bool)
      requires Indexed() && !closing
      modifies this`isQuitting, this`isStopping, this`children, this`stops, this`closing, this`appExited
      ensures prevented == !old(isQuitting)
      ensures View() == if prevented then AppQuit(old(View())) else old(View())
      decreases if isQuitting then 0 else 1, 0
    {
      if isQuitting { return false; }
      isQuitting := true;
      var waits := StopBackend();
      if !waits {
        Quit();
      }
      return true;
    }

    method OnQuitRequested()
      requires Valid() && Enabled(View(), QuitRequested)
      modifies this`isQuitting, this`isStopping, this`children, this`stops, this`closing, this`appExited, this`trace
      ensures Valid() && trace == old(trace) + [QuitRequested]
      ensures View() == Apply(old(View()), QuitRequested)
    {
      ghost var before := View();
      Invariant();
      Quit();
      Record(before, QuitRequested);
    }

    /** The `closed` event of the window; the last window gone while nothing is closing them means
        `window-all-closed`. */
    method OnClosed()
      requires Valid() && Enabled(View(), WindowCloses)
      modifies this`windowOpen, this`isQuitting, this`isStopping, this`children, this`stops, this`closing,
               this`appExited, this`trace
      ensures Valid() && trace == old(trace) + [WindowCloses]
      ensures View() == Apply(old(View()), WindowCloses)
    {
      ghost var before := View();
      Invariant();
      windowOpen := false;
      if closing {
        appExited := true;
      } else {
        Quit();
      }
      Record(before, WindowCloses);
    }

    /** `handleBackendCrash` up to its first dialog. */
    method HandleBackendCrash()
      modifies this`isRestarting, this`recoveries
      ensures View() == HandleCrash(old(View()))
    {
      if isQuitting || isRestarting { return; }
      isRestarting := true;
      recoveries := recoveries + [CrashDialog];
    }

    /** The crash dialog is answered. */
    method OnCrashAnswered(task: nat, restart: bool)
      requires Valid() && Enabled(View(), CrashAnswered(task, restart))
      modifies this
      ensures Valid() && trace == old(trace) + [CrashAnswered(task, restart)]
      ensures View() == Apply(old(View()), CrashAnswered(task, restart))
    {
      ghost var before := View();
      Invariant();
      if restart {
        recoveries := recoveries[task := RestartPort];
      } else {
        recoveries := recoveries[task := QuitChosen];
        Quit();
      }
      Record(before, CrashAnswered(task, restart));
    }

    /** The restart attempt resumes with a free port, or with the error of `findFreePort`. */
    method OnRestartPort(task: nat, found: bool)
      requires Valid() && TaskAt(View(), task, RestartPort) && !appExited
      modifies this`isStopping, this`children, this`backendProcess, this`recoveries, this`trace
      ensures Valid() && trace == old(trace) + [if found then RestartPortFound(task) else RestartPortFailed(task)]
      ensures View() == Apply(old(View()), if found then RestartPortFound(task) else RestartPortFailed(task))
    {
      ghost var before := View();
      if found {
        SpawnBackend();
        recoveries := recoveries[task := RestartHealth];
        Record(before, RestartPortFound(task));
      } else {
        recoveries := recoveries[task := RetryDialog];
        Record(before, RestartPortFailed(task));
      }
    }

    /** The restart attempt resumes after the health wait. */
    method OnRestartHealth(task: nat, healthy: bool)
      requires Valid() && TaskAt(View(), task, RestartHealth) && !appExited
      modifies this`callbackSet, this`isRestarting, this`recoveries, this`trace
      ensures Valid() && trace == old(trace) + [if healthy then RestartHealthy(task) else RestartUnhealthy(task)]
      ensures View() == Apply(old(View()), if healthy then RestartHealthy(task) else RestartUnhealthy(task))
    {
      ghost var before := View();
      if healthy {
        callbackSet := true;
        if windowOpen {
          isRestarting := false;
          recoveries := recoveries[task := Recovered];
        } else {
          recoveries := recoveries[task := RetryDialog];
        }
        Record(before, RestartHealthy(task));
      } else {
        recoveries := recoveries[task := RetryDialog];
        Record(before, RestartUnhealthy(task));
      }
    }

    /** The retry dialog is answered. */
    method OnRetryAnswered(task: nat, retry: bool)
      requires Valid() && Enabled(View(), RetryAnswered(task, retry))
      modifies this
      ensures Valid() && trace == old(trace) + [RetryAnswered(task, retry)]
      ensures View() == Apply(old(View()), RetryAnswered(task, retry))
    {
      ghost var before := View();
      Invariant();
      if retry {
        recoveries := recoveries[task := RestartPort];
      } else {
        recoveries := recoveries[task := QuitChosen];
        Quit();
      }
      Record(before, RetryAnswered(task, retry));
    }

    /** `whenReady` up to the backend's start. */
    method OnReady()
      requires Valid() && Enabled(View(), BootBegins)
      modifies this`windowOpen, this`boot, this`trace
      ensures Valid() && trace == old(trace) + [BootBegins]
      ensures View() == Apply(old(View()), BootBegins)
    {
      ghost var before := View();
      windowOpen := true;
      boot := AwaitingPort;
      Record(before, BootBegins);
    }

    method OnBootPort(found: bool)
      requires Valid() && boot.AwaitingPort? && !appExited
      modifies this
      ensures Valid() && trace == old(trace) + [if found then BootPortFound else BootPortFailed]
      ensures View() == Apply(old(View()), if found then BootPortFound else BootPortFailed)
    {
      ghost var before := View();
      Invariant();
      if found {
        SpawnBackend();
        boot := AwaitingHealth;
        Record(before, BootPortFound);
      } else {
        boot := FailedBeforeSpawn;
        Quit();
        Record(before, BootPortFailed);
      }
    }

    method OnBootHealth(healthy: bool)
      requires Valid() && boot.AwaitingHealth? && !appExited
      modifies this
      ensures Valid() && trace == old(trace) + [if healthy then BootHealthy else BootUnhealthy]
      ensures View() == Apply(old(View()), if healthy then BootHealthy else BootUnhealthy)
    {
      ghost var before := View();
      Invariant();
      if healthy {
        callbackSet := true;
        boot := Ready;
        Record(before, BootHealthy);
      } else {
        boot := FailedHealth;
        Quit();
        Record(before, BootUnhealthy);
      }
    }
  }
}
