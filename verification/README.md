# PlanningTree: a Dafny model of its protocols, text helpers and evidence pipeline

`dafny verify dfyconfig.toml` checks every file of the project.

PlanningTree is a desktop application (an Electron shell that supervises a Python backend) with a
session core that streams events to its clients and a family of scripts that turn measurements into
release-gate evidence. The project models these parts and proves what they promise:

| Module | Subject |
|---|---|
| `Supervisor`, `SupervisorRuns`, `SupervisorQuits`, `SupervisorShutdown`, `DesktopApp` | starting, restarting and stopping the backend, with every interleaving of the asynchronous handlers |
| `Cursors`, `EventJournal`, `EventStream`, `EventStreamCare`, `EventStreamLimits`, `EventStreamRaces`, `EventStreamRecovery` | the session core's event journal: numbering, retention, replay cursors, subscriber queues, and what one client receives and applies over all its connections |
| `LineBuffering` | the incremental line splitter that logs the backend's output |
| `Pattern`, `PromptHelpers` | a backtracking matcher for the fence pattern; fence stripping, whitespace normal form, truncation |
| `Json`, `Numbers`, `GateReport`, `Producers`, `Agreement`, `Verdicts`, `PipelineExample` | the phase 07 and 08 evidence pipeline: producers that write artifacts, reports that judge them again, and whether both agree |
| `Percentiles`, `LagModel`, `PersistBenchmark` | interpolated percentiles, the deterministic lag model, the checkpoint cost model |
| `WindowState` | window bounds that survive restarts |
| `Text`, `Sequences`, `Options` | shared vocabulary |

Code that changes state is modelled as a class or a method with loops (`DesktopApp.App`,
`EventJournal.RuntimeStore`, `LineBuffering.LineBuffer`, `WindowState.Store`, the loops of the
scripts); each such method is proved equal to a function of its inputs or of its old state, and the
theorems are about those functions. The two protocols are transition systems. A step of the supervisor
is the code between two `await`s. A step of the event stream is the code between two points where
another thread can get in: where the store's lock is taken or released, and, while a full queue is
drained under that lock, between the single removals, because a reader that has looked its
subscription up waits for the queue without the lock.
`DesktopApp.App` records the step of every handler call, so the theorems over all runs hold of its
variables after any sequence of calls. `EventJournal.RuntimeStore` shares its functions with the steps
of the event stream, and `FanOutIsOffered` shows that the steps of a fan-out come to what its method
does, but no recorded trace links its fields to the runs.

## Where the code is weaker than it looks

Each of these is a theorem below, with the exact condition where there is one.

- Opening an event stream reads the replay and subscribes under two separate lock acquisitions, and an
  append publishes outside the lock that numbered it. The durability contract (section "Replay
  correctness invariants") says that replay followed by live events keeps `eventSeq` strictly
  increasing; the code can send an event twice (`EventDeliveredTwice`) or not at all
  (`EventNeverDelivered`).
- A full queue is drained item by item before the control item ends the stream. A reader that waits for
  the queue can take an item in the middle and so skip events (`OverflowRace`). A client that has
  applied nothing yet does not notice (`OverflowLosesSilently`); one that was up to date flags a gap
  (`OverflowLeavesGap`). Only a queue of capacity one is safe from this (`QueueFits`).
- `CarefulIsExact` says exactly which steps keep a connection lossless. The client's projection absorbs
  duplicates and flags gaps (`AppliedIsAlwaysAStretch`), except before its first event, where a loss
  goes unnoticed.
- The journal numbers every notification that names a thread, but the route sends only some methods
  and the client listens only to some. The client takes a hidden event for a gap, reconnects at its
  last event, and meets the same gap again: until it resets its cursor it never applies another event
  (`HiddenEventBlocks`, `BlockedIsReachable`). While its cursor is available, a client is stuck like
  this if and only if its next event is hidden (`BlockedIffStuck`). Over careful runs that is
  the only way to see a gap (`CarefulClientsKeepUp`).
- When a gap is followed by another during the recovery, the controller resets the cursor and replays
  from zero. As long as a visible event before the hidden one is retained that does not help: the
  client applies the same events again and stops at the same place, over every run (`BarrierHolds`);
  once none is retained it gets past (`HiddenEventPassed`). `ResetHelpsIff` joins both.
- The durability contract (section "Cursor miss behavior") allows no silent fallback. The code has two:
  cursor zero once events were dropped, and any cursor past the last event; `AcceptedCursors` shows
  that these are all, `SilentFallbacks` gives one input of each.
- A failed health check leaves its backend running, so backends can pile up: one for each failed
  restart (`BackendsPileUp`), never more (`LiveBackendsBounded`).
- `before-quit` stops only the current backend and a restart loop in flight never looks at
  `_isQuitting`. `CleanShutdownIffSafe` gives the exact states from which quitting abandons no
  backend. After a restart within the grace period the wrong backend gets the SIGKILL
  (`GraceKillsTheNewcomer`).
- The reload audit judges its count before rounding, the report judges the rounded value. They agree
  for every measurement if and only if the target survives rounding (`RoundingSafeMeaning`); targets
  with at most three decimals always do.
- `truncate` respects its limit if and only if the text fits or the limit is at least three.
- For sample sizes 1, 15 to 21, 29 to 41 and 43 or more, and for no others, the reported lag p95 is the
  rounded peak `base + jitter` whatever base and jitter are (`P95IsPeakIff`): it then measures its
  inputs and not the sample. The default size of 100 is one of them.
- The docstring of `strip_json_fence` promises the original text when there is no fence; that holds if
  and only if the text has no whitespace at either end (`OriginalKeptIffTrimmed`,
  `OriginalNotKept`).
- The phase 07 report ignores the artifact's own status. On artifacts of its own producers that makes
  no difference (`Phase07EqualsStricterRule`); elsewhere `RulesDifferExactly` says when it does.

## Model

| member | source | states |
|---|---|---|
| EventStreamCare.LosslessDelivery | backend/session_core_v2/storage/runtime_store.py:690-759 | over every careful run, through any number of connections, lags, reconnections, cursor resets and restarts, what each connection handles is a gapless, duplicate-free, ordered stretch of everything journaled, right after its cursor |
| EventStreamLimits.CarefulIsExact | backend/session_core_v2/connection/manager.py:1011-1034 | a step is careful if and only if every careful continuation keeps the connection lossless: fan-out in journal order while a client is in step, no failing observer, cursor still available at the replay, in flight at the subscription exactly what was journaled since the replay, and no live item taken from a queue's drain after a drop unless it is the next event |
| EventStream.AppliedIsAlwaysAStretch | frontend/src/features/session_v2/state/applySessionEvent.ts:645-661 | over every run, careful or not, the events the client has applied lie next to each other in the history, in order, each once |
| EventStream.ApplyEventMeaning | frontend/src/features/session_v2/state/applySessionEvent.ts:645-661 | a duplicate changes nothing, an event handled again changes nothing; the next event, or any first one, is applied; only a later one raises the gap flag and nothing lowers it |
| EventStream.HiddenEventBlocks | backend/routes/session_v4.py:1147-1157 | once the event after a client's last one is hidden from it, the client never applies another event until its cursor is reset, over every run and every reconnection |
| EventStreamCare.CarefulClientsKeepUp | frontend/src/features/session_v2/state/applySessionEvent.ts:645-661 | over every careful run the client has applied every visible event handled since its cursor, unless a gap is flagged; and a gap is flagged only for a client that is blocked |
| EventStream.BarrierHolds | frontend/src/features/session_v2/facade/sessionEventStreamController.ts:472-527 | over every run, cursor resets included: while a hidden event and a visible one before it are retained, a client before the hidden event never applies anything past it |
| EventStreamRecovery.BlockedIffStuck | frontend/src/features/session_v2/facade/sessionEventStreamController.ts:257-272 | while the client's cursor is available: no run without a reset changes what the client has applied if and only if the event after its last one is hidden from it |
| EventStreamRecovery.UnblockedCanAdvance | frontend/src/features/session_v2/facade/sessionEventStreamController.ts:241-272 | otherwise a careful run in which it applies one event more |
| EventStreamRecovery.ResetHelpsIff | frontend/src/features/session_v2/facade/sessionEventStreamController.ts:484-526 | a blocked client that has seen its gap, with a visible event retained after the hidden one, can get past before retention drops more if and only if no visible event before the hidden one is retained |
| EventStreamRecovery.HiddenEventPassed | frontend/src/features/session_v2/facade/sessionEventStreamController.ts:484-526 | a run that starts with a reset and ends with the first retained visible event applied, whatever was hidden before it |
| EventStreamRecovery.NoNeedlessReset | frontend/src/features/session_v2/facade/sessionEventStreamController.ts:472-491 | after a careful run the cursor is reset only for a blocked client |
| EventStreamRecovery.RefusedIff | backend/session_core_v2/storage/runtime_store.py:1378-1394 | a reconnection is refused if and only if the event after the client's last one is gone |
| EventStreamRecovery.RefusedIsFinal | backend/session_core_v2/storage/runtime_store.py:1382-1394 | over every run a refused client gets no further, restarts included |
| EventStreamRecovery.RestartThenOpen | backend/session_core_v2/storage/runtime_store.py:1712-1719 | right after a restart a client can reopen, carefully, and is replayed all it missed; whatever was in flight is forgotten |
| EventStreamRecovery.WaitsAgain | backend/routes/session_v4.py:1126-1136 | a read that times out leaves everything as it was |
| EventStreamRecovery.AppendTrims | backend/session_core_v2/storage/runtime_store.py:1428-1441 | each append keeps the journal as short as both floors allow |
| EventStreamRaces.BlockedIsReachable | backend/session_core_v2/storage/runtime_store.py:641-648 | a careful run that ends in a blocked client: one journaled notification that the route leaves out, or that the client does not listen for, is enough |
| EventStreamRaces.RoutedMethods | backend/routes/session_v4.py:53-59 | a method the route lets through and one it does not |
| EventStreamRaces.RoutedFamilies | backend/routes/session_v4.py:53-59 | a name with a slash is let through if and only if the part before the slash is one of seven families, or it is listed by itself |
| EventStreamRaces.RoutedNames | backend/routes/session_v4.py:53-59 | the names listed by themselves are let through, with any whitespace around them |
| EventStreamLimits.CarelessRun | backend/session_core_v2/storage/runtime_store.py:740-744 | for each careless step, a continuation in which a connection loses, repeats or reorders events |
| EventStreamRaces.EventDeliveredTwice | backend/session_core_v2/connection/manager.py:1013-1015 | an event journaled before the replay and fanned out after the subscription is sent twice |
| EventStreamRaces.EventNeverDelivered | backend/session_core_v2/connection/manager.py:1013-1015 | an event journaled and fanned out between replay and subscription never reaches a new client, which applies the next one and flags no gap |
| EventStreamRaces.ReplayCanBeEarly | backend/session_core_v2/storage/runtime_store.py:708-743 | the first race is reachable from an empty store |
| EventStreamRaces.FanOutCanBeEarly | backend/session_core_v2/storage/runtime_store.py:708-743 | the second race is reachable from an empty store |
| EventStreamRaces.OverflowRace | backend/session_core_v2/storage/runtime_store.py:1401-1413 | a reader that waits for a full queue and comes after the first drop gets the second event and never the first: the route has skipped one, a client that was up to date flags a gap without being blocked, and a client that has applied nothing does not notice |
| EventStreamRaces.OverflowLosesSilently | backend/session_core_v2/storage/runtime_store.py:915-926 | for every capacity of two or more, a careful run from an empty store to that race, at whose end a visible event is lost unnoticed |
| EventStreamRaces.OverflowLeavesGap | backend/session_core_v2/storage/runtime_store.py:915-926 | the same with a client that has applied one event: a gap, but not blocked |
| EventStreamRaces.QueueFits | backend/session_core_v2/storage/runtime_store.py:1401-1413 | over every run, the items queued and those a drain has dropped are together never more than the capacity; with a capacity of one the race cannot happen |
| EventStreamRaces.DrainCounts | backend/session_core_v2/storage/runtime_store.py:1401-1413 | whatever the order of drops and a reader's delivery, a finished drain has counted every item it did not hand over, and it hands over at most one, none if the reader had not looked its subscription up |
| EventStreamRaces.ObserverRace | backend/session_core_v2/storage/runtime_store.py:738-744 | while a client is in step and something is in flight, an observer that raises loses the next event for it |
| EventStreamRaces.FanOutIsOffered | backend/session_core_v2/storage/runtime_store.py:1396-1413 | the steps of one fan-out, with a reader anywhere in the drain or without, come to the queue and the taken item of the store's method |
| EventStreamRaces.AtomicOpenIsCareful | backend/session_core_v2/connection/manager.py:1011-1015 | opening a stream in one piece while no append is half done is always careful, and ends with the replay after the client's last event |
| EventStream.StepIsSane | backend/session_core_v2/storage/runtime_store.py:690-829 | every step keeps numbering and journal, and every event on its way to the client is one of the history |
| EventStreamCare.RunKeepsInv | backend/routes/session_v4.py:1099-1170 | the inductive invariant of careful runs: what was handled, waits in the replay, is queued and is in flight is together the tail of the journal after the cursor, or the stream has lagged or is being drained and what was handled or still is replayed is a stretch of it |
| EventStreamCare.StepInLine | backend/routes/session_v4.py:1099-1170 | every careful step keeps that invariant |
| EventStreamCare.StepKeepsClient | frontend/src/features/session_v2/facade/sessionEventStreamController.ts:257-272 | every careful step keeps the client in line with its connection |
| EventStreamCare.QueueOverflows | backend/session_core_v2/storage/runtime_store.py:1401-1413 | when a full queue starts to be drained, what was handled, still is replayed and is queued is a stretch of the journal: a reader before the first drop is safe |
| EventStream.StepKeepsStore | backend/session_core_v2/storage/runtime_store.py:708-734 | numbering without gaps and a retained tail survive every step, restarts included |
| EventJournal.AcceptedCursors | backend/session_core_v2/storage/runtime_store.py:1378-1394 | for every cursor: whoever can resume is accepted, and what is accepted with a replay that silently falls short is exactly cursor zero once events were dropped and any cursor past the last event |
| EventJournal.CursorOutcome | backend/session_core_v2/storage/runtime_store.py:793-818 | what the check decides for every text: nothing asks for all that is retained, no number and a negative one are invalid, a number is expired if and only if it is positive and the event after it is gone |
| EventJournal.EventIdChecked | backend/session_core_v2/storage/runtime_store.py:1378-1394 | an event identifier sent back is refused exactly when the event after it is gone, and otherwise the replay is every event after it |
| EventJournal.MalformedRejected | backend/session_core_v2/storage/runtime_store.py:804-811 | what is no number after the last colon is invalid |
| EventJournal.SilentFallbacks | backend/session_core_v2/storage/runtime_store.py:793-818 | both silent cases on one concrete journal |
| Cursors.EventIdReadsBack | backend/session_core_v2/storage/runtime_store.py:795-803 | an event identifier sent back as a cursor names its own number, whatever the thread is called; so does a bare number |
| Cursors.ParseIntReads | backend/session_core_v2/storage/runtime_store.py:803 | `int` reads a decimal number with an optional sign and whitespace on both sides |
| Cursors.ParseIntIff | backend/session_core_v2/storage/runtime_store.py:803 | and nothing is a number but such digits, with single underscores between them |
| Cursors.UnderscoreIgnored | backend/session_core_v2/storage/runtime_store.py:803 | an underscore between digits changes nothing |
| EventJournal.TrimKeepsBothFloors | backend/session_core_v2/storage/runtime_store.py:1428-1441 | retention drops the longest prefix of events that happened more than the window ago and that leaves the configured number of events |
| EventJournal.AppendRetains | backend/session_core_v2/storage/runtime_store.py:709-734 | an append extends the numbering and keeps the journal a non-empty tail of the history, whatever the clock says |
| EventJournal.RecoveredSequenceIsHead | backend/session_core_v2/storage/runtime_store.py:1712-1719 | the number recovered after a restart is the last one ever assigned |
| EventJournal.RuntimeStore.constructor | backend/session_core_v2/storage/runtime_store.py:95-115 | capacities and retention are clamped to at least one |
| EventJournal.RuntimeStore.JournalEvent | backend/session_core_v2/storage/runtime_store.py:708-738 | first half of an append: next number, trimmed journal, other threads untouched |
| EventJournal.RuntimeStore.TrimJournal | backend/session_core_v2/storage/runtime_store.py:1428-1441 | the counting loop computes the retention rule |
| EventJournal.RuntimeStore.FanoutEvent | backend/session_core_v2/storage/runtime_store.py:1396-1413 | every subscriber of the thread, and nobody else, is offered the event; each may have one reader overlapping the drain, and what that reader gets is stated |
| EventJournal.RuntimeStore.Put | backend/session_core_v2/storage/runtime_store.py:1401-1413 | a full queue is emptied and holds one control item with the number of items dropped, which leaves out the one an overlapping reader took |
| EventJournal.RuntimeStore.ParseCursor | backend/session_core_v2/storage/runtime_store.py:793-818 | missing, malformed, negative, expired and accepted cursors, from their text |
| EventJournal.RuntimeStore.ReplayEvents | backend/session_core_v2/storage/runtime_store.py:820-829 | the loop returns the journaled events after the cursor |
| EventJournal.RuntimeStore.SubscribeThreadEvents | backend/session_core_v2/storage/runtime_store.py:893-903 | a fresh subscription with an empty queue |
| EventJournal.RuntimeStore.ReadSubscriberEvent | backend/session_core_v2/storage/runtime_store.py:915-949 | takes the oldest item of one queue; a timeout and a missing subscriber differ |
| EventJournal.RuntimeStore.Unsubscribe | backend/session_core_v2/storage/runtime_store.py:951-953 | removes that subscription only |
| SupervisorRuns.OneRecoveryAtATime | electron/main.js:209-260 | in every reachable state at most one recovery is unfinished, and then `_isRestarting` is set; the callback is set only after a successful start |
| SupervisorRuns.StopIsSafe | electron/main.js:314-320 | `stopBackend` is called at most once and only while quitting, `_isStopping` implies `_isQuitting`, and its second look at the process variable never finds null |
| SupervisorRuns.NoSecondRecovery | electron/main.js:210-211 | an exit seen while restarting or quitting opens no recovery |
| SupervisorRuns.NoRecoveryWhileQuitting | electron/main.js:210-211 | after quitting began no run opens another recovery |
| SupervisorQuits.QuitsExactlyWhenAsked | electron/main.js:226-320 | over every run: the application is quitting if and only if a dialog was declined, a start failed, the window went or a quit was requested; and then a stop waits, the windows are closing, or it is gone |
| SupervisorQuits.QuitCanFinish | electron/main.js:314-320 | a quit under way can always be finished, by the end of the grace period and the last window |
| SupervisorQuits.StopWaitsIff | electron/backend-manager.js:161-182 | the stop waits if and only if the newest backend did not end with an exit code, even if a signal ended it; otherwise the windows close or the process exits at once |
| SupervisorQuits.ExitNoticedIff | electron/backend-manager.js:141-151 | an exit opens one recovery, at its dialog, if and only if a backend has been up, no restart is under way and the application is not quitting |
| SupervisorQuits.FlagsFitAlways | electron/backend-manager.js:112-191 | over every run, while the stop waits `_isStopping` says whether the current backend is the one asked to stop; afterwards the process variable never names a backend that was sent SIGKILL |
| SupervisorQuits.GoneStaysGone | electron/backend-manager.js:161-191 | no step touches a process that is gone |
| SupervisorQuits.AllMayEnd | electron/backend-manager.js:141-151 | at any time all running backends may end |
| SupervisorRuns.LiveBackendsBounded | electron/main.js:232-259 | in every run at most one backend is alive besides one per failed restart attempt, and recoveries never outnumber exits |
| SupervisorRuns.RunAccounts | electron/backend-manager.js:112-155 | every backend ever spawned is accounted for, and every recovery consumed an exit of its own |
| SupervisorRuns.StepBalances | electron/backend-manager.js:120-132 | each step moves the books of spawned backends evenly |
| SupervisorRuns.StepMovesExits | electron/backend-manager.js:141-151 | only an exit event adds an exit, and only an exit event can add a recovery |
| SupervisorRuns.RunKeepsInv | electron/main.js:209-320 | the inductive invariant of the protocol over all runs |
| SupervisorRuns.StepKeepsTasks | electron/main.js:209-260 | all recoveries but the last are done, and the flag mirrors the last one |
| SupervisorRuns.StepKeepsStop | electron/backend-manager.js:161-191 | at most one stop, exactly while quitting; the process variable names the newest backend until it is cleared; SIGTERM only while quitting and SIGKILL only when the stop is over |
| SupervisorRuns.GraceKeepsStop | electron/backend-manager.js:182-190 | when the wait is over the process variable is set, whatever a restart did meanwhile |
| SupervisorRuns.QuitKeepsTasks | electron/main.js:314-320 | a quit request leaves every task and every process's life alone |
| SupervisorShutdown.CleanShutdownIffSafe | electron/main.js:310-320 | after any run, every continuation of a quit request or of closing the window ends with no backend abandoned if and only if it was safe to quit: an explicit condition on the state before |
| SupervisorShutdown.CleanIffSettled | electron/main.js:314-320 | at every point of every shutdown, all continuations end clean if and only if nothing can spawn any more and every running backend is the current one, sent SIGTERM, or was sent SIGKILL |
| SupervisorShutdown.SettledEndsClean | electron/backend-manager.js:161-191 | a settled shutdown stays settled over every run and exits clean |
| SupervisorShutdown.UnsettledLeaks | electron/main.js:232-259 | from every unsettled point, a run up to the exit of the process that abandons a running backend |
| SupervisorShutdown.GraceKillsTheNewcomer | electron/backend-manager.js:175-190 | a restart during the grace period: the new backend gets the SIGKILL, the one asked to stop never does |
| SupervisorShutdown.GraceRestartHappens | electron/main.js:235-257 | such a restart is reachable from startup |
| SupervisorShutdown.BackendsPileUp | electron/backend-manager.js:125-153 | for every n, a run with n failed attempts and n + 1 live backends |
| DesktopApp.App.Promises | electron/main.js:209-320 | after any sequence of handler calls the variables keep the promises proved over all runs |
| DesktopApp.App.Invariant | electron/backend-manager.js:182-190 | after any sequence of handler calls the protocol invariant holds |
| DesktopApp.App.constructor | electron/main.js:22-24 | the initial state |
| DesktopApp.App.SpawnBackend | electron/backend-manager.js:123-132 | clears the stop flag, adds a backend, makes it current |
| DesktopApp.App.OnExit | electron/backend-manager.js:141-151 | an exit event, with the crash callback under its guard |
| DesktopApp.App.StopBackend | electron/backend-manager.js:161-173 | the first half of a stop, with its early return |
| DesktopApp.App.FinishStop | electron/backend-manager.js:181-190 | the second half: SIGKILL unless an exit code is set, without a null check, then clear |
| DesktopApp.App.OnGraceOver | electron/main.js:319 | the end of the wait, and the `app.quit()` that follows it |
| DesktopApp.App.Quit | electron/main.js:310-320 | `app.quit()` with its recursion through a stop that need not wait |
| DesktopApp.App.OnBeforeQuit | electron/main.js:314-320 | the first request is prevented and starts the stop, a later one is let through |
| DesktopApp.App.OnQuitRequested | electron/main.js:314-320 | a request from the menu or the system |
| DesktopApp.App.OnClosed | electron/main.js:310-312 | the window is gone, and with it the last one |
| DesktopApp.App.HandleBackendCrash | electron/main.js:209-224 | the guard, and the opening of a recovery |
| DesktopApp.App.OnCrashAnswered | electron/main.js:226-229 | the crash dialog's answer |
| DesktopApp.App.OnRestartPort | electron/main.js:235-236 | the restart attempt with or without a free port |
| DesktopApp.App.OnRestartHealth | electron/main.js:236-252 | the restart attempt after its health wait, including a window that is gone |
| DesktopApp.App.OnRetryAnswered | electron/main.js:244-257 | the retry dialog's answer |
| DesktopApp.App.OnReady | electron/main.js:277-290 | startup until the backend is requested |
| DesktopApp.App.OnBootPort | electron/main.js:292-303 | startup with or without a free port |
| DesktopApp.App.OnBootHealth | electron/main.js:293-303 | startup after its health wait |
| LineBuffering.RunIsSplit | electron/backend-manager.js:62-83 | after any chunks and flushes, the lines emitted are the non-empty finished pieces of the whole input with a newline per flush, and the buffer is the unfinished last piece |
| LineBuffering.ChunkingIrrelevant | electron/backend-manager.js:55-57 | chunk boundaries never show |
| LineBuffering.FlushedOutput | electron/backend-manager.js:76-81 | after a closing flush the lines are all non-empty pieces |
| LineBuffering.TextConserved | electron/backend-manager.js:64-73 | nothing but newlines is lost, duplicated or reordered |
| LineBuffering.ResidualIsTail | electron/backend-manager.js:67-68 | the buffer is the newline-free tail after the last newline; lines are non-empty and newline-free |
| LineBuffering.LineBuffer.constructor | electron/backend-manager.js:63 | starts empty |
| LineBuffering.LineBuffer.OnData | electron/backend-manager.js:64-74 | the loop performs one data step |
| LineBuffering.LineBuffer.FlushBuffer | electron/backend-manager.js:76-81 | one flush step |
| Pattern.ChoicesFit | backend/ai/prompt_helpers.py:31-34 | the engine tries exactly the ends that fit a factor |
| Pattern.Search | backend/ai/prompt_helpers.py:42 | what the search returns is a parse of the text from the start |
| Pattern.SearchComplete | backend/ai/prompt_helpers.py:42 | backtracking misses nothing: a text with a parse is matched |
| Pattern.SearchIsFirst | backend/ai/prompt_helpers.py:31-34 | the parse found precedes every other in the engine's order |
| Pattern.TagBeforeNone | backend/ai/prompt_helpers.py:31-34 | an optional tag is taken when it is there |
| PromptHelpers.StripJsonFenceMeaning | backend/ai/prompt_helpers.py:37-45 | the greedy and lazy search equals a declarative reading: a fenced text yields its stripped body, any other is only stripped |
| PromptHelpers.OriginalKeptIffTrimmed | backend/ai/prompt_helpers.py:40-45 | without a fence the original text is returned if and only if it has no whitespace at either end |
| PromptHelpers.OriginalNotKept | backend/ai/prompt_helpers.py:40-45 | a literal text without a fence that is not returned as it is |
| PromptHelpers.CapturedIsShortest | backend/ai/prompt_helpers.py:32 | the lazy group: no parse that begins its body at the same place has a shorter body |
| PromptHelpers.ParseIsFenced | backend/ai/prompt_helpers.py:31-34 | every parse of the pattern is an opening fence line, a body and a closing fence line |
| PromptHelpers.FencedParses | backend/ai/prompt_helpers.py:31-34 | every such text is matched |
| PromptHelpers.FencedBodyUnique | backend/ai/prompt_helpers.py:42-44 | however a text is read as fenced, its stripped body is the same |
| PromptHelpers.FenceRoundTrip | backend/ai/prompt_helpers.py:37-45 | any body, fenced with json, JSON or no tag and padded with whitespace, comes back stripped |
| PromptHelpers.OneLayerOnly | backend/ai/prompt_helpers.py:42-44 | one call removes one fence |
| PromptHelpers.NormalizeKeepsWords | backend/ai/prompt_helpers.py:9-12 | the words survive |
| PromptHelpers.NormalizeIsCanonical | backend/ai/prompt_helpers.py:9-12 | equal results if and only if equal words; idempotent |
| PromptHelpers.NormalizedIffSingleSpaced | backend/ai/prompt_helpers.py:9-12 | exactly the trimmed, single-spaced texts are fixed |
| Text.WordsOfJoin | backend/ai/prompt_helpers.py:12 | joining clean words and splitting again is the identity |
| Text.SpaceCharacters | backend/ai/prompt_helpers.py:12 | the whitespace characters, one by one |
| PromptHelpers.TruncateRespectsLimit | backend/ai/prompt_helpers.py:15-18 | the limit is met if and only if the text fits or the limit is at least three |
| PromptHelpers.TruncateBelowThree | backend/ai/prompt_helpers.py:15-18 | a limit of two gives ten characters |
| PromptHelpers.TruncateComposes | backend/ai/prompt_helpers.py:15-18 | truncating twice is truncating once, with the exact length |
| PromptHelpers.FormatFrameShape | backend/ai/prompt_helpers.py:21-28 | the empty notice if and only if the document is blank, else header and truncated document |
| Json.Dig | scripts/phase08_reload_reason_audit.py:37-43 | the loop follows the dotted path |
| Json.TextOfMeaning | scripts/phase08_gate_report.py:109-127 | Python's false values read as no text, everything else as its own text, stripped |
| Json.FirstNumber | scripts/phase08_reload_reason_audit.py:46-51 | the loop finds the first numeric path |
| Json.NumberAtIsFirst | scripts/phase08_reload_reason_audit.py:46-51 | the result is at a numeric path with no numeric path before it, and conversely |
| Json.RequireNumber | scripts/phase05_gate_report.py:23-31 | the loop computes the strict reader |
| Json.RequiredMeaning | scripts/phase05_gate_report.py:23-31 | its three outcomes in terms of plain lookups |
| Json.DigComposes | scripts/phase08_reload_reason_audit.py:37-43 | lookup composes over concatenated paths |
| Json.StrictAgreesWithLenient | scripts/phase05_gate_report.py:23-31 | the strict reader succeeds with a number if and only if the lenient one finds it |
| Numbers.RoundIsNearest | scripts/phase08_render_fanout_profile.py:208 | nearest integer, ties to even |
| Numbers.Round3Monotone | scripts/phase08_render_fanout_profile.py:208 | rounding to thousandths is monotone |
| Numbers.Round3Fixes | scripts/phase08_render_fanout_profile.py:208 | exactly the multiples of one thousandth are fixed |
| GateReport.PhaseGates | scripts/phase08_gate_report.py:47-90 | the loop resolves the gate list or reports the first bad record or a missing source |
| GateReport.GateEntryMeaning | scripts/phase08_gate_report.py:47-90 | which entries are gates, and which numbers a gate admits in terms of the operator's text and the target in the file |
| GateReport.BuildReport | scripts/phase08_gate_report.py:164-237 | results in gate order, both counters exact, `all_pass` if and only if every result passes |
| GateReport.RunReport | scripts/phase08_gate_report.py:333-354 | exit code 0 if and only if every required source has a gate and every gate a certified artifact; 1 exactly for what cannot be read or a failed self-test; 2 otherwise |
| GateReport.PassIffCertified | scripts/phase08_gate_report.py:109-184 | a gate passes if and only if its artifact is candidate evidence with path and SHA, declares success and its value compares with the target as the operator says |
| GateReport.ResultMeaning | scripts/phase08_gate_report.py:164-207 | a judged gate records the artifact's own value and whether that alone meets the target |
| GateReport.IssuesMeaning | scripts/phase08_gate_report.py:136-151 | when each eligibility issue is raised, and that there is none exactly for candidate evidence marked eligible with path and commit or synthetic evidence marked ineligible |
| GateReport.IneligibleMeaning | scripts/phase08_gate_report.py:164-209 | the counter of eligibility failures counts nothing that passes and is zero exactly when all evidence is eligible |
| GateReport.SelfTestMeaning | scripts/phase08_gate_report.py:333-354 | the self-test fails exactly when some artifact declares an evidence mode that is neither of the two |
| GateReport.AllCertified | scripts/phase08_gate_report.py:174-209 | the same for the whole list |
| GateReport.CertifiesMeaning | scripts/phase08_gate_report.py:209-232 | the certified state in terms of the judged results |
| GateReport.RequiredCovered | scripts/phase08_gate_report.py:81-90 | every required source has a gate |
| GateReport.SyntheticNeverPasses | scripts/phase08_gate_report.py:149-184 | synthetic evidence never passes |
| GateReport.SharedSourceSharesMetric | scripts/phase08_gate_report.py:118-122 | gates that share a source must name the same metric |
| Producers.GateContract | scripts/phase08_reload_reason_audit.py:64-92 | the loop finds the first entry of the source |
| Producers.Measure | scripts/phase08_stream_resilience_scenario.py:153-195 | overwriting the built-in numbers computes metric and policy |
| Producers.FormulasRelate | scripts/phase08_stream_resilience_scenario.py:133-136 | the three formulas determine each other; a percentage recovers its numerator |
| Agreement.ImprovementKeepsVerdict | scripts/phase08_render_fanout_profile.py:204-211 | improving the measured quantity never turns a passing verdict into a failing one |
| Producers.ProduceArtifact | scripts/phase08_render_fanout_profile.py:139-238 | a whole producer, errors included |
| Verdicts.VerdictMeaning | scripts/phase08_stream_resilience_scenario.py:139-215 | what an artifact says, from its input files: which numbers are used and when the built-in ones are, the metric as an equation, the value to the nearest thousandth, and a pass if and only if the judged number meets the gate and no positive count vetoes it |
| Verdicts.VetoFails | scripts/phase08_stream_resilience_scenario.py:195-196 | a positive veto count fails the verdict |
| Verdicts.ArtifactNamesGate | scripts/phase08_stream_resilience_scenario.py:198-212 | phase, source, metric, target and operator are the gate's, the operator as the gates file spells it |
| Verdicts.BuildErrors | scripts/phase08_stream_resilience_scenario.py:111-133 | every error of a producer with a readable baseline, in order, and exactly when there is none |
| Verdicts.SyntheticBuild | scripts/phase08_stream_resilience_scenario.py:117-122 | without a candidate there is only ineligible synthetic evidence, and only when it is allowed |
| Verdicts.SyntheticJudged | scripts/phase08_gate_report.py:149-184 | and no report passes it |
| Verdicts.ContractEntryMeaning | scripts/phase08_reload_reason_audit.py:64-92 | which entries a producer can work with, and which numbers it takes to meet one |
| Verdicts.BuiltInReports | scripts/phase08_render_fanout_profile.py:150-208 | the numbers the six scripts report when they read no file |
| Verdicts.StreamRun | scripts/phase08_stream_resilience_scenario.py:139-215 | a whole run of the stream resilience scenario on any three counts: the reported share, and a pass if and only if it is within the limit and no transient reconnect caused a reload |
| Verdicts.StreamScenarioCounts | scripts/phase08_stream_resilience_scenario.py:146-186 | the stream resilience scenario is a script of the kind that run is about |
| Producers.CandidateBuildSucceeds | scripts/phase08_reload_reason_audit.py:111-223 | exactly when a candidate-mode producer writes an artifact |
| Producers.OpText | scripts/phase08_reload_reason_audit.py:209 | the operator written is the one read |
| Agreement.PipelineAgreement | scripts/phase08_gate_report.py:164-207 | with distinct sources and targets that are safe to round to, the report loads all candidate artifacts and repeats each one's verdict; it can only object to a blank candidate path |
| PipelineExample.ProducedExists | scripts/phase08_gate_report.py:164-207 | for any well-formed scripts that cover a phase there are files, runs and gates that meet every hypothesis of the pipeline theorems |
| PipelineExample.Scripts07Cover | scripts/phase07_gate_report.py:77-81 | the three scripts of phase 07 are such scripts |
| PipelineExample.Scripts08Cover | scripts/phase08_gate_report.py:81-90 | the three scripts of phase 08 are such scripts |
| Agreement.GateAgreement | scripts/phase08_gate_report.py:109-184 | the same for one artifact |
| Agreement.ContractMatchesGate | scripts/phase08_reload_reason_audit.py:72-91 | producer and report read the same gate when sources are distinct |
| Agreement.ArtifactReadsBack | scripts/phase08_gate_report.py:109-161 | write and read is the identity on every field the report checks |
| Agreement.VerdictSupported | scripts/phase08_reload_reason_audit.py:193-210 | a producer never claims more than its reported value supports |
| Agreement.RoundingSafeMeaning | scripts/phase08_reload_reason_audit.py:195-207 | the exact targets for which judging before rounding is harmless |
| Agreement.GridTargetsAreSafe | scripts/phase08_reload_reason_audit.py:193-207 | targets on the thousandth grid are safe |
| Agreement.UnsafeTargetDisagrees | scripts/phase08_reload_reason_audit.py:195-207 | at every other target a measured value exists on which producer and report disagree |
| Agreement.UnsafeTargetsExist | scripts/phase08_reload_reason_audit.py:195-207 | an unsafe target for every operator |
| Agreement.ReloadAuditReadsBareValue | scripts/phase08_reload_reason_audit.py:153-183 | the reload audit reads that value from a one-field file |
| Agreement.StatusAddsNothing | scripts/phase07_gate_report.py:170-176 | on a phase 07 producer's artifact, in either mode, the status changes no verdict |
| Agreement.Phase07EqualsStricterRule | scripts/phase07_gate_report.py:156-201 | gate by gate the phase 07 report equals the rule that includes the status |
| Agreement.RulesDifferExactly | scripts/phase07_gate_report.py:170-176 | on other artifacts the rules differ exactly on eligible evidence that meets its target and declares failure |
| Percentiles.PercentileMonotone | scripts/phase06_interactive_stream_smoke.py:13-24 | monotone in the percentage over the whole real line |
| Percentiles.PercentileInRange | scripts/phase06_interactive_stream_smoke.py:13-24 | between the least and the greatest sample |
| Percentiles.PercentileIsLinear | scripts/phase06_interactive_stream_smoke.py:20-24 | between two neighbouring samples a percentile is the straight line from one to the other |
| Percentiles.RankIsShare | scripts/phase06_interactive_stream_smoke.py:20 | the rank is the same share of the way through the sample as the percentage of one hundred |
| Percentiles.MiddleOfTwo | scripts/phase06_interactive_stream_smoke.py:20-24 | the middle of two samples is their mean |
| Percentiles.PercentileSplitsSample | scripts/phase06_interactive_stream_smoke.py:20-24 | at least floor(rank) + 1 samples at or below, at least n - upper at or above |
| Percentiles.PercentilePointwise | scripts/phase06_interactive_stream_smoke.py:13-24 | raising samples never lowers a percentile |
| Percentiles.PercentileAffine | scripts/phase06_interactive_stream_smoke.py:20-24 | commutes with scaling and shifting |
| LagModel.BuildPayload | scripts/phase06_interactive_stream_smoke.py:27-40 | the sample loop, both errors, and a p95 between the rounded base and the rounded peak |
| LagModel.P95Bounds | scripts/phase06_interactive_stream_smoke.py:33-40 | the bounds for every accepted input |
| LagModel.P95IsInterpolated | scripts/phase06_interactive_stream_smoke.py:33-40 | for every size and every input, the reported p95 is the multiple of a thousandth nearest to the point 95% of the way through the sorted sample |
| LagModel.WaveShape | scripts/phase06_interactive_stream_smoke.py:33-38 | the wave starts at its peak, repeats every fourteen samples and moves by one seventh a step, down to zero and up again |
| LagModel.SortSorts | scripts/phase06_interactive_stream_smoke.py:39 | sorting gives an ordered rearrangement |
| LagModel.PeaksCounted | scripts/phase06_interactive_stream_smoke.py:35-38 | one sample in fourteen, rounded up, is on the peak |
| LagModel.P95IsPeak | scripts/phase06_interactive_stream_smoke.py:33-40 | once the peaks reach the 95% rank the p95 is the rounded peak |
| LagModel.P95IsPeakIff | scripts/phase06_interactive_stream_smoke.py:33-40 | for every sample size: the p95 is the rounded peak whatever the base and the jitter if and only if the size is 1, 15 to 21, 29 to 41, or at least 43 |
| LagModel.PeaksReachRankMeaning | scripts/phase06_interactive_stream_smoke.py:20-23 | those are exactly the sizes at which the peak samples reach down to the 95% rank |
| PersistBenchmark.SnapshotsAreLeast | scripts/phase05_persist_load_benchmark.py:46 | the snapshot count is the least that covers all events |
| PersistBenchmark.BytesWritten | scripts/phase05_persist_load_benchmark.py:38-49 | clamped arguments, events that add up turn by turn, and the bytes of both variants |
| PersistBenchmark.ReductionIsShare | scripts/phase05_persist_load_benchmark.py:51-54 | the reduction is the share of rewrites that checkpoints save |
| PersistBenchmark.CandidateCheaperIff | scripts/phase05_persist_load_benchmark.py:42-49 | checkpointing writes fewer bytes if and only if interval and total are at least two |
| PersistBenchmark.SnapshotsAntitone | scripts/phase05_persist_load_benchmark.py:46 | longer intervals never need more snapshots |
| PersistBenchmark.RewriteReductionOrdered | scripts/phase05_persist_load_benchmark.py:51-54 | the reduction lies in [0, 100) and never falls when the interval grows |
| WindowState.LoadMeaning | electron/window-state.js:35-72 | size at least 400 by 300; a position if and only if the file holds one that shows a 100 by 100 block |
| WindowState.LoadedSize | electron/window-state.js:35-46 | width and height come from the file, each by itself, unless missing or too small, and then from the default; maximized only if the file says true |
| WindowState.OverlapMeaning | electron/window-state.js:54-61 | the overlap formula reaches a length if and only if a common interval of that length exists |
| WindowState.OverlapCounts | electron/window-state.js:54-61 | on whole coordinates it counts the shared ones |
| WindowState.SavedIsLastNormal | electron/window-state.js:86-113 | after any saves the file holds the bounds of the latest un-maximized save, or the default size |
| WindowState.RestoresLastNormal | electron/window-state.js:35-113 | save and load round trip |
| WindowState.Store.constructor | electron/window-state.js:16-18 | no file, no timer |
| WindowState.Store.DoSave | electron/window-state.js:86-113 | one save, recorded in the history |
| WindowState.Store.SaveWindowState | electron/window-state.js:80-120 | one waiting save after a debounced request, none after an immediate one |
| WindowState.Store.TimerFires | electron/window-state.js:86-118 | the waiting save runs and nothing is left waiting |
| WindowState.Store.LoadWindowState | electron/window-state.js:35-72 | loading what the saves left |

## Left out

Event stream:

- Cursors in non-ASCII decimal digits, which Python also accepts; thread identifiers are taken as already stripped.
- Snapshots and the resynchronisation after an expired cursor; the model ends with the client told to resync.
- Restart is modelled for the sqlite store; the in-memory store forgets its journal. SQL errors are left out.
- The client reconnects through its controller, which resumes at the projection's last event. Its frame batching drops what a reconnect fetches again. Setting the replay cursor from outside (the workflow bridge, hydration) is not modelled, nor what events do to the projection beyond being applied. The controller's attempt counter is left out: any gap may lead to a cursor reset.
- The methods a client listens to are a parameter (`Config.listens`), so the results hold for any list.
- Turn states, server requests, idempotency records and metrics of the same store, and everything else of the session core and the workflow engine.

Desktop application:

- Dev mode, the `error` event of a binary that cannot be started, Windows `taskkill`, menus, splash page and key handling.
- Health polling, free-port search and dialogs are nondeterministic outcomes; the five-second grace may end at any time.
- Electron is modelled as far as quitting needs it: `app.quit()` emits `before-quit` at once; when that is let through, the window closes at some later point, other steps may still happen until then, and the last window gone ends the process. Whether a dialog can still be accepted meanwhile is left open (`dialogsOutlive`). The page never refuses to unload.
- Chunks are already decoded text; a character split over two chunks is not modelled.
- Write failures of the window-state file; `getDisplayMatching` is a parameter; coordinates are real numbers.

Evidence scripts:

- Floating point, NaN and infinities: numbers are exact reals, and `round(x, 3)` is half-even on exact thousandths.
- Files are a map from path to parsed JSON; a file that does not parse counts as missing, and writing the output is left out.
- `str()` of values that are not strings is a parameter (`Renderer`), so the results hold whatever it gives.
- Artifact fields that no report reads (`generated_at`, `baseline_metadata`, the other context numbers), the producers' self-tests and the argument parsers.
- The six producers share one program and differ in the constants of a `Producer` record; phases 03, 04, 06 and 09 to 13 and the ask reports are the same code with other constants.
- The other functions of `phase05_gate_report.py` and of the benchmarks only assemble output.

Text:

- Whitespace is Python's set for `str.isspace` and `\s`, written out; surrogate characters do not exist in Dafny's `char`.
- The matcher covers the factors that the fence pattern uses, not regular expressions in general.
