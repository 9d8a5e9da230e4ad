# Verified models of the druid daemon

This project models the parts of the daemon whose correctness does not show in any single function,
and proves what they promise: the command scheduler of a runtime session, the two container
backends, chunk packing and in-place updates, traffic-based idle stops, hot reload, port resolution
and the search for files in OCI artifacts. `dafny verify dfyconfig.toml` checks all of it.

## Layout

* `Domain`, `CommandStatus`, `QueueManager`, `Needs`: commands, persisted procedure statuses, the
  status derivation (both copies) and the graph of needs.
* `Scheduler`: a runtime session as a step relation. One step is one critical section, so any order
  of adds, passes, launches, observations, ends, remembering and stops is a sequence of steps. A
  history records launches, ends and closed done channels.
* `SchedulerInvariant`, `SchedulerEffects`, `SchedulerFlight`, `SchedulerOrder`, `SchedulerStop`, `SchedulerSingleRun`,
  `SchedulerDoubleRun`, `SchedulerAtomicRemember`, `SchedulerDoneChannel`, `SchedulerOnce`: one
  family of safety theorems each, over all runs. `SchedulerPass`, `SchedulerProgress`,
  `SchedulerDrive`: what a pass achieves, how often it takes, and that runs with such passes exist.
  A `Licence` says what an existing run may do: which adds it may force, and whether it remembers.
* `RuntimeSession` (module `Session`): the session object with its mutable fields. Each method is
  shown to be one or more steps of `Scheduler`, so the theorems hold of it.
* `DockerProcedures`, `DockerAttempts`, `KubernetesProcedures`: running the procedures of a command,
  and choosing a container or job for an attempt, as loops over mutable engine state.
* `Traffic`, `KeepAlive`: the traffic sample store, windows over it, and the idle stop.
* `HotReload`: the builder protocol of the file watcher.
* `RuntimePorts`: dynamic ports, reservations and routing.
* `OciSearch`: the breadth-first search through manifests and indexes; descriptors are those of
  section "OCI Content Descriptors" of the OCI Image Format Specification.
* `Paths`, `Chunks`, `SkippedChunks`, `WorkerUpdate`: written paths and their components, chunk
  expansion over a directory tree, the paths updates skip against the paths chunks are packed under,
  and the in-place update of a runtime from a pulled scroll.

## Where the code does not do what one would expect

* A command that another one needs can come to run twice at once. The walk over finished dependencies reads a
  status under one lock and remembers the item under another; if the command was added again and
  launched in between, it is marked done while it runs and can be launched again. As long as no
  running command is remembered, nothing runs twice (`SchedulerSingleRun.SingleRun`); and the first
  time a running command is remembered, two runs become possible, for every command whose needs run
  once to an end (`SchedulerDoubleRun.GuardIsExact`, `SchedulerDoubleRun.GuardIsExactFromInit`). A
  run-once command gets there only through a forced add, which the source uses for the serve command
  and for publishing user interfaces. One lock around read and write would be enough for sessions that
  start empty (`SchedulerAtomicRemember`), though not for hydrated restart and persistent commands.
* A dependency that a walk has read as Done before a stop can be remembered after it, and then counts as
  done without having run since (`SchedulerStop.UnaidedExactly`). All other dependencies but finished
  run-once commands start over (`SchedulerStop.NeedsSucceedAgain`).
* A waited restart command whose run fails twice closes its done channel twice, because a restart
  reuses the item. Closing a closed channel panics, so the daemon ends at that event, which is the last
  one of the runs constructed here (`SchedulerDoneChannel.RestartClosesTwice`); in every other mode it
  cannot happen (`SchedulerDoneChannel.NeverClosedAgain`).
* What counts as traffic in a window is the difference between the last counter and the first one in the
  window, summed over pods in 64 bits. It misses what the first sample of the window recorded, what a
  counter that went back swallowed, and everything once the sum wraps, so a job can be stopped although
  it received more than its thresholds demand (`KeepAlive.EdgeStops`, `KeepAlive.ResetStops`,
  `KeepAlive.WrappedSumStops`). A stopped job received less exactly if the sum does not wrap and what is
  missed is less than what the threshold lacks (`KeepAlive.StopIsSound`). Received is here what the
  samples recorded: each its increase over the sample before it, nothing for one after a reset.
* An update drops routing assignments that name their port only by their own name, although they
  resolve it (`RuntimePorts.UnnamedAssignmentIsLost`, `RuntimePorts.PreservedExactly`).
* The update takes the declared path of a skipped chunk literally, while packing trims it, counts an
  absolute path from the data directory and expands patterns. So an update overwrites what a skipped
  chunk was packed from if its path is absolute, if blanks around it matter, or if it or a parent is a
  pattern with a match of another name (`SkippedChunks.SkipPathIsChunkPath`,
  `SkippedChunks.MatchesAreOverwritten`, `SkippedChunks.ChildOfMatch`,
  `SkippedChunks.PatternIsNotSkipped`). Without absolute paths, such blanks and patterns the two agree
  at every depth (`SkippedChunks.NestedSkipPaths`).
* A file that lies beside a nested child chunk, below the same entry of the parent, is in no chunk
  (`Chunks.CoveredExactly`).

## Assumptions

* The command table is fixed during a run, every command has a procedure, and procedure names are
  distinct within a command.
* Hydration comes before any pass. Passes are serialised. Stops find no run and no pass in progress,
  as the source waits for; that draining completes is assumed.
* Histories that go on after a second close of a channel are in the step relation although the process
  has ended there; theorems about all runs hold of them too.
* The last observation of a run, the return of the backend and the settling of the queue item are
  one step. The store saves what it is given.
* A restart command is relaunched with the same item and done channel; during its backoff any other
  pass may relaunch it.
* Labels, container and job names are used as they are: sanitising them is the identity on the base
  names in use and keeps different names different. Attempt numbers are unbounded.
* Removals of Docker containers succeed; a container that has exited stays exited. Jobs are not
  changed by others while the backend chooses among them.
* Glob matches and the listing of the directory tree are given; paths are split at slashes and cleaned
  component by component as `Clean` says.

## Model

| member | source | states |
|---|---|---|
| `CommandStatus.DeriveCommandStatus` | apps/druid/core/services/runtime_status.go:39-79 | exactly when each result comes out, from the statuses alone: Error if some procedure has it; Running if some has it and none has Error; Done if all have it; Waiting if one was seen, not all are Done and none is Error or Running; nothing if none was seen |
| `CommandStatus.DeriveCommandStatuses` | apps/druid/core/services/runtime_status.go:28-37 | exactly the commands of the table that derive to a status, with that status |
| `CommandStatus.DeriveScrollStatus` | apps/druid/core/services/runtime_status.go:5-26 | each result exactly, whatever order the commands are visited in: created if no command has a status, error if some has Error, running if some is Running or Waiting and none has Error, else stopped |
| `CommandStatus.DeriveIgnoresOrder` | apps/druid/core/services/runtime_status.go:39-79 | reordering or repeating the procedures of a command never changes its derived status |
| `QueueManager.DeriveCommandStatusFromProcedures` | internal/core/services/queue_manager.go:19-59 | the second copy meets the same five conditions and the same specification as the first, on every input |
| `SchedulerInvariant.FinishKeepsValid` | apps/druid/core/services/runtime_session_queue.go:245-293 | the end of a run, with any outcome and run mode, keeps the session consistent |
| `SchedulerInvariant.StepKeepsValid` | apps/druid/core/services/runtime_session_queue.go:169-295 | every step of the scheduler keeps the session consistent |
| `SchedulerInvariant.RunKeepsValid` | apps/druid/core/services/runtime_session_queue.go:443-463 | over every interleaving each queue item is in flight, errored, remembered as done or has its run requested: no item is ever stuck |
| `SchedulerOrder.RunKeepsOrder` | apps/druid/core/services/runtime_session_queue.go:169-295 | over every interleaving each launch comes after a success of every direct dependency, and Done statuses are only ever read of commands that have succeeded |
| `SchedulerOrder.PathSucceeded` | apps/druid/core/services/runtime_session_queue.go:209-231 | in such a history a launch is preceded by a success of the end of every path of needs from it |
| `SchedulerOrder.DependenciesSucceedFirst` | apps/druid/core/services/runtime_session_queue.go:209-241 | from an empty session, every launch is preceded by a successful end of every command reachable through needs |
| `SchedulerOrder.CyclesNeverLaunch` | apps/druid/core/services/runtime_session_queue.go:209-231 | a command that reaches itself through needs is never launched from an empty session |
| `SchedulerStop.RunForgets` | apps/druid/core/services/runtime_session_queue.go:169-295 | no step of the scheduler depends on what has happened before the state it starts from |
| `SchedulerStop.NeedsSucceedAgain` | apps/druid/core/services/runtime_session_runtime.go:79-121 | over every run after a stop, each launch comes after a success since the stop of every direct dependency that is neither a finished run-once command nor read as Done by a walk before the stop |
| `SchedulerStop.UnaidedExactly` | apps/druid/core/services/runtime_session_runtime.go:79-121 | after a stop a command can be launched before anything has succeeded if and only if each of its needs is one of these |
| `SchedulerSingleRun.FinishKeepsSingle` | apps/druid/core/services/runtime_session_queue.go:245-293 | when a run ends its command is no longer running and no other run is affected |
| `SchedulerSingleRun.StepKeepsSingle` | apps/druid/core/services/runtime_session_queue.go:169-295 | every step keeps at most one run per command and ties each run to the live, in-flight item of its command, if no running command is remembered as done |
| `SchedulerSingleRun.SingleRun` | apps/druid/core/services/runtime_session_queue.go:67-89 | from any hydrated session and over every interleaving in which no command is remembered as done while it runs, at most one run of each command is in progress |
| `SchedulerSingleRun.SafeWithoutRemembering` | apps/druid/core/services/runtime_session_queue.go:67-89 | interleavings of adds, passes, ends and stops without any remembering meet the condition of the single-run theorem |
| `SchedulerFlight.ReachedIsSound` | apps/druid/core/services/runtime_session_queue.go:42-53 | over every interleaving from a hydrated session, also the unsafe ones: every running command is queued, and only a persistent one is in flight without a run |
| `SchedulerEffects.PersistentStaysUp` | apps/druid/core/services/runtime_session_queue.go:245-293 | after a successful end of a persistent command its queue item is the old one, and only the status of a last procedure that is a signal has changed |
| `SchedulerEffects.FinishEffect` | apps/druid/core/services/runtime_session_queue.go:245-293 | what every other end leaves behind, by run mode and outcome: item flags, statuses of all procedures, nothing else |
| `SchedulerEffects.LeavesFlightExactly` | apps/druid/core/services/runtime_session_queue.go:42-293 | an item in flight stays the same item in flight over a step if and only if the step is no remembering of it, no stop, and no end of its run other than a persistent success |
| `SchedulerEffects.StaysInFlight` | apps/druid/core/services/runtime_session_queue.go:59-91 | over whole runs: until one of these happens the command counts as Running, and every add is refused as already in the queue, forced or not |
| `SchedulerEffects.PersistentIsNotAdded` | apps/druid/core/services/runtime_session_queue.go:265-270 | so a persistent command that has succeeded cannot be added again until it is stopped, remembered, or fails |
| `SchedulerEffects.StopForgets` | apps/druid/core/services/runtime_session_runtime.go:79-121 | which statuses survive a stop, by run mode and procedures, and that a refused stop keeps all |
| `SchedulerDrive.PassExists` | apps/druid/core/services/runtime_session_queue.go:186-243 | from every idle session a whole pass can be gone through |
| `SchedulerDrive.WaitingIsLaunched` | apps/druid/core/services/runtime_session_queue.go:169-243 | a waiting command whose needs, direct or not, are defined, on no cycle and run once to an end can always be brought to its launch, with its own item, whatever else is queued |
| `SchedulerDoubleRun.LaunchFirst` | apps/druid/core/services/runtime_session_queue.go:169-243 | an eligible command whose dependencies count as done can be launched by the next pass before anything else |
| `SchedulerDrive.CompleteRun` | apps/druid/core/services/runtime_session_queue.go:245-293 | any run of a one-shot command can go on to a successful end that leaves it Done and everything else as it was |
| `SchedulerDoubleRun.UnsafeRememberRunsTwice` | apps/druid/core/services/runtime_session_queue.go:42-53 | from every reachable state, in a pass or not, in which a command runs and a walk has decided to remember it, remembering it leads to two concurrent runs without any further remembering, if its needs can be brought to Done or count as done while no pass is active; only a run-once command needs a forced add for it |
| `SchedulerDoubleRun.GuardIsExact` | apps/druid/core/services/runtime_session_queue.go:42-53 | after a safe history and for such a command: remembering it makes two concurrent runs of some command possible if and only if it is running |
| `SchedulerDoubleRun.GuardIsExactFromInit` | apps/druid/core/services/runtime_session_queue.go:42-53 | the same from an empty session over every safe interleaving for every command with one-shot needs; that they are defined and on no cycle follows from its having run |
| `SchedulerDoubleRun.EmptySessionRunsTwice` | apps/druid/core/services/runtime_session_commands.go:177-198 | the guard can be violated: the status is read under one lock and remembered under another, so from an empty session every one-shot command that another one needs, and whose own needs can be brought to Done, can run twice at once; adds are forced only for a run-once command |
| `SchedulerDoubleRun.HydratedRunsTwice` | apps/druid/core/services/runtime_session_queue.go:110-148 | hydrated Done statuses of restart and persistent commands survive their launch, so there even an atomic read-and-remember by a walk that needs the command leads to two runs, without a forced add |
| `SchedulerAtomicRemember.AtomicRunIsSafe` | apps/druid/core/services/runtime_session_commands.go:186-192 | if every remembering directly follows its read, it never hits a running command |
| `SchedulerAtomicRemember.SingleRunWhenAtomic` | apps/druid/core/services/runtime_session_commands.go:177-198 | with an atomic read-and-remember, no interleaving from an empty session runs a command twice at once |
| `SchedulerDoneChannel.RunKeepsChannels` | apps/druid/core/services/runtime_session_queue.go:245-252 | every interleaving keeps the life of each item: nothing, one launch, or launch, end and, if waited for, one close |
| `SchedulerDoneChannel.DoneChannelClosedOnce` | apps/druid/core/services/runtime_session_queue.go:245-252 | outside restart mode an item is launched at most once and its done channel is closed exactly once, right after its own run has ended, over every interleaving from a hydrated session |
| `SchedulerDoneChannel.NeverClosedAgain` | apps/druid/core/services/runtime_session_queue.go:245-252 | so outside restart mode no channel is ever closed a second time |
| `SchedulerDoneChannel.RestartClosesTwice` | apps/druid/core/services/runtime_session_queue.go:245-288 | in restart mode the claim is false: from every idle state in which a waited restart item is in line and its needs can be brought to Done, two failing runs lead to a second close of the same channel as the last event |
| `SchedulerDoneChannel.WaitedRestartClosesTwice` | apps/druid/core/services/runtime_session_queue.go:59-91 | such a state is reached from an empty session by one waited add, for every restart command whose needs can be brought to Done |
| `SchedulerOnce.NeverLaunchedAgain` | apps/druid/core/services/runtime_session_queue.go:77-80 | after its success a run-once command is launched by no sequence of unforced adds, dependency adds, passes, ends, remembering and stops, and it still counts as done |
| `SchedulerOnce.SuccessSettles` | apps/druid/core/services/runtime_session_queue.go:289-292 | a success of a run-once command brings it into that state |
| `SchedulerOnce.SuccessIsFinal` | apps/druid/core/services/runtime_session_queue.go:77-80 | over whole runs from a hydrated session: after a history that has been safe up to a success of a run-once command, nothing but a forced add ever launches it again |
| `SchedulerPass.NoProgressBlocks` | apps/druid/core/services/runtime_session_queue.go:186-231 | a pass that launches no command of a group closed under needs, and queues no new one, leaves each queued command of it without reason to run or held back by a scheduled dependency that is not done, whatever the modes |
| `SchedulerPass.PassNoMore` | apps/druid/core/services/runtime_session_queue.go:169-243 | no pass requests a run of a queued command, so it never leaves a group more to do |
| `SchedulerPass.PassMakesProgress` | apps/druid/core/services/runtime_session_queue.go:169-241 | no stuck queue: if nothing of a group that is closed under needs and has no cycles is in flight or failed, and some queued command of it is not done or has its run requested, then every pass launches a command of the group or queues a new one, whatever the modes and whatever other commands do |
| `SchedulerPass.PassReducesTodo` | apps/druid/core/services/runtime_session_queue.go:169-241 | if besides no restart item of the group rests without a requested run, such a pass leaves the group less to do, counted in commands to queue and requested runs |
| `SchedulerProgress.RoundDecreases` | apps/druid/core/services/runtime_session_queue.go:169-293 | a pass after which the runs of the group succeed leaves the group strictly less to do |
| `SchedulerProgress.RoundsCompleteQueue` | apps/druid/core/services/runtime_session_queue.go:169-293 | for a group of one-shot commands whose runs succeed, two rounds per command complete every queued one, dependencies included, whatever else is queued |
| `SchedulerDrive.RoundsExist` | apps/druid/core/services/runtime_session_queue.go:169-293 | from every state between rounds there are such rounds, and they do lead to a state in which every queued command of the group is done |
| `SchedulerDrive.RoundsLaunch` | apps/druid/core/services/runtime_session_queue.go:169-243 | however the rounds go: a waiting command of any mode, of which no run is in progress, is launched within two rounds for each command of its one-shot needs and two more |
| `Session.RuntimeSession.DropUnknown` | apps/druid/core/services/runtime_session_commands.go:213-217 | drops exactly the persisted statuses of commands that no longer exist |
| `Session.RuntimeSession.PersistCommandStatus` | apps/druid/core/services/runtime_session_commands.go:200-234 | writes the status for all procedures of a known command and no other, never Running, and rederives the scroll status |
| `Session.RuntimeSession.PersistProcedureStatus` | apps/druid/core/services/runtime_session_commands.go:246-268 | writes one procedure of a known command and rederives the scroll status |
| `Session.WriteAllSetsCommand` | apps/druid/core/services/runtime_session_execution.go:100-104 | persisting the procedures one after the other comes to setting the whole command, whatever names they have |
| `Session.RuntimeSession.SetCommandProcedureStatus` | apps/druid/core/services/runtime_session_execution.go:100-104 | the loop over single procedures sets the whole command |
| `Session.RuntimeSession.RefreshCommandState` | apps/druid/core/services/runtime_session_commands.go:156-175 | the session takes over the stored statuses of existing commands and the stored scroll status, cleans the store if there were others, and does nothing if it cannot read; a store that has what the session has changes nothing |
| `Session.RuntimeSession.SetQueueStatusLocked` | apps/druid/core/services/runtime_session_queue.go:443-463 | every flag of the item after each queue status, the identity it keeps, the status of every procedure, and that other commands are untouched |
| `Session.RuntimeSession.SetStatus` | apps/druid/core/services/runtime_session_queue.go:435-441 | the same by name; nothing happens when the item is gone |
| `Session.RuntimeSession.SetError` | apps/druid/core/services/runtime_session_queue.go:425-433 | the item is errored and out of flight, and the statuses become errors even without an item |
| `Session.RuntimeSession.DerivedScheduledStatus` | apps/druid/core/services/runtime_session_queue.go:465-488 | the flags of the item win over the persisted statuses, in the order error, running, done |
| `Session.RuntimeSession.AddQueueItem` | apps/druid/core/services/runtime_session_queue.go:59-91 | each refusal exactly by flags, derived status, run mode and force; otherwise the fresh item with its requested run and Waiting for every procedure |
| `Session.RuntimeSession.RememberDoneItem` | apps/druid/core/services/runtime_session_queue.go:42-53 | the item is remembered as done, not in flight and without error; identity, waiter and requested run stay |
| `Session.RuntimeSession.HydrateCommand` | apps/druid/core/services/runtime_session_queue.go:117-131 | by derived status and run mode: no item, a fresh remembered one, or a requested one that keeps its identity and whether it is in flight |
| `Session.RuntimeSession.HydrateFromState` | apps/druid/core/services/runtime_session_queue.go:110-148 | fails exactly on unknown commands; otherwise every persisted command is queued as its status and run mode say and a session that has not started stays consistent |
| `Session.DormantIsQuiet` | apps/druid/core/services/runtime_session_queue.go:110-148 | a hydrated session that has not started is one the theorems about runs start from |
| `Session.RuntimeSession.RememberDependency` | apps/druid/core/services/runtime_session_commands.go:181-196 | one dependency of the walk: it and what it reaches beyond the seen names are visited, exactly the done ones are remembered |
| `Session.RuntimeSession.RememberDoneDependencies` | apps/druid/core/services/runtime_session_commands.go:177-198 | the walk ends on every graph of needs; what it has newly seen is closed under needs and below the command; it is a sequence of scheduler steps |
| `Session.ClosedContainsReachable` | apps/druid/core/services/runtime_session_commands.go:177-198 | a set closed under needs that holds the needs of a command holds everything the command reaches |
| `Session.RuntimeSession.RememberReachable` | apps/druid/core/services/runtime_session_commands.go:100-100 | a whole walk sees exactly what the command reaches in one or more steps, remembers exactly the done ones and changes nothing else |
| `Session.RuntimeSession.AutoStartServe` | apps/druid/core/services/runtime_session_commands.go:94-117 | the walk, then a persistent command that is up in a running scroll is left alone and any other is added by force and ends up active; nothing else is added |
| `Session.RuntimeSession.TakeSnapshot` | apps/druid/core/services/runtime_session_queue.go:173-182 | status and requested run of every queued command, as they are at that moment |
| `Session.RuntimeSession.IsCandidate` | apps/druid/core/services/runtime_session_queue.go:186-207 | exactly which commands of the snapshot a pass goes on with, and exactly which unknown ones are dropped |
| `Session.RuntimeSession.CheckDependency` | apps/druid/core/services/runtime_session_queue.go:210-227 | the locked reads and the add for one dependency are steps of the pass |
| `Session.RuntimeSession.LaunchIfReady` | apps/druid/core/services/runtime_session_queue.go:228-243 | the item in flight with the run that carries its identity, or nothing if it is not ready or gone; a launch step of the scheduler |
| `Session.RuntimeSession.RunQueue` | apps/druid/core/services/runtime_session_queue.go:169-243 | an undisturbed pass in any order of the snapshot is a whole pass of the scheduler, and every run it adds starts at its first procedure or, in restart mode, where the backend takes the command up |
| `Session.RuntimeSession.FinishCommand` | apps/druid/core/services/runtime_session_queue.go:245-293 | for every run mode and outcome the flags of the item and the statuses it leaves: a persistent success changes nothing but a last signal's status, a one-shot success is remembered as done, a restart waits for its next run, any other failure is an error; a finish step of the scheduler |
| `Session.RuntimeSession.DropStopped` | apps/druid/core/services/runtime_session_runtime.go:101-108 | a command keeps statuses exactly if it is in the table, runs once and has all its procedures Done; those are unchanged |
| `Session.RuntimeSession.StopRuntime` | apps/druid/core/services/runtime_session_runtime.go:79-121 | the queue is emptied even if the backend refuses, which keeps all statuses; otherwise statuses are kept exactly of run-once commands with all procedures Done |
| `DockerProcedures.RunCommand` | internal/runtime/docker/procedures.go:18-76 | where a run stops, from procedures and results alone: at the first missing image, failed signal, exit code that is not to be ignored or error without an ignored exit code (persistent: error or missing image), and nowhere else; success exactly if nowhere; the exact observations; and, whatever was persisted, those of a non-persistent run derive to Done on success and Error otherwise |
| `DockerProcedures.RunOne` | internal/runtime/docker/procedures.go:30-73 | one round of the loop: whether the command goes on, what is observed and what is reported, case by case |
| `DockerProcedures.CompletedAreDone` | internal/runtime/docker/procedures.go:52-73 | after a completed stretch its procedures are Done and no other status has changed |
| `DockerProcedures.SuccessDerivesDone` | internal/runtime/docker/procedures.go:52-75 | for any starting statuses, a successful non-persistent run derives to Done |
| `DockerProcedures.FailureDerivesError` | internal/runtime/docker/procedures.go:54-71 | for any starting statuses, a run that stops at a procedure derives to Error and nothing is observed of a later one |
| `DockerProcedures.DoneTooEarly` | internal/runtime/docker/procedures.go:52-73 | between two procedures the statuses derive to Done if and only if all procedures still to come were Done before the run |
| `DockerProcedures.CompletedIsScheduled` | apps/druid/core/services/runtime_session_execution.go:71-73 | the observations of completed procedures are observe steps of the scheduler |
| `DockerProcedures.SuccessIsScheduled` | apps/druid/core/services/runtime_session_execution.go:60-98 | a successful run is a run of the scheduler that ends with what the backend observed |
| `DockerProcedures.FailureIsScheduled` | apps/druid/core/services/runtime_session_execution.go:60-104 | so is a failing run, wherever it stops: it ends with what the backend observed and an error for every procedure, and the command derives to Error |
| `DockerAttempts.AtoiItoa` | internal/runtime/docker/procedure_attempts.go:170-172 | a printed attempt number reads back as itself |
| `DockerAttempts.AtoiSigned` | internal/runtime/docker/procedure_attempts.go:244-256 | a sign in front of the digits is read |
| `DockerAttempts.NumberFromLabel` | internal/runtime/docker/procedure_attempts.go:244-249 | the label of an attempt gives its number |
| `DockerAttempts.NumberFromName` | internal/runtime/docker/procedure_attempts.go:250-255 | so does its name when the label is missing |
| `DockerAttempts.NamesDiffer` | internal/runtime/docker/procedure_attempts.go:237-242 | different attempts have different names |
| `DockerAttempts.ActiveAttempt` | internal/runtime/docker/procedure_attempts.go:186-196 | the last running attempt by number and creation time, if any runs |
| `DockerAttempts.SuccessfulAttempts` | internal/runtime/docker/procedure_attempts.go:198-206 | exactly the stopped attempts with exit code 0 |
| `DockerAttempts.SortAttempts` | internal/runtime/docker/procedure_attempts.go:215-220 | the same attempts, in order of number and creation time |
| `DockerAttempts.PrunedAttempts` | internal/runtime/docker/procedure_attempts.go:208-225 | all failed attempts but the last ones, as many as are retained |
| `DockerAttempts.NextAttempt` | internal/runtime/docker/procedure_attempts.go:227-235 | the first number above all listed ones |
| `DockerAttempts.Engine.Inspect` | internal/runtime/docker/procedure_attempts.go:34-58 | every container once, with the number its label or name gives |
| `DockerAttempts.Engine.MakeRoom` | internal/runtime/docker/procedure_attempts.go:69-88 | removes successful and old failed containers and nothing else |
| `DockerAttempts.Engine.CreateOrReuse` | internal/runtime/docker/procedure_attempts.go:24-105 | reuses the running container that comes last by number and creation time and changes nothing; without one, a new running container is created and at most three failed ones are kept unchanged |
| `DockerAttempts.MoveKeepsInvariant` | internal/runtime/docker/procedure_attempts.go:24-105 | selecting, starting, exiting and removing keep numbers consistent with labels and names, numbers distinct and the counts bounded |
| `DockerAttempts.AttemptsOverRuns` | internal/runtime/docker/procedure_attempts.go:24-105 | at any time, starting from no containers: at most one active attempt, distinct numbers and names, at most retention plus one failures |
| `DockerAttempts.KeptAreLargest` | internal/runtime/docker/procedure_attempts.go:79-88 | over whole runs, the failures kept when a container is created are exactly those with fewer than three larger-numbered failures |
| `KubernetesProcedures.IndexOf` | internal/runtime/kubernetes/procedure_attempts.go:30-36 | the last procedure that carries a label |
| `KubernetesProcedures.Cluster.LargestActive` | internal/runtime/kubernetes/procedure_attempts.go:45-55 | the largest index of an active job with a known label, 0 without any |
| `KubernetesProcedures.Cluster.ResumeIndex` | internal/runtime/kubernetes/procedure_attempts.go:22-81 | fails exactly if a superseded job cannot be deleted; otherwise, job by job, what is left active belongs to the procedure at the index, what has gone was active and of an earlier one |
| `KubernetesProcedures.ScanPrinted` | internal/runtime/kubernetes/procedure_attempts.go:170-184 | a printed attempt number scans back as itself |
| `KubernetesProcedures.ScanIgnoresRest` | internal/runtime/kubernetes/procedure_attempts.go:170-184 | a number is read with its sign and whatever follows it is ignored |
| `KubernetesProcedures.NumberedByLabelThenName` | internal/runtime/kubernetes/procedure_attempts.go:170-184 | the number of a job comes from its label, else from its name, and is 1 without either |
| `KubernetesProcedures.Cluster.ListJobs` | internal/runtime/kubernetes/procedure_attempts.go:88-99 | exactly the jobs of the procedure, oldest first |
| `KubernetesProcedures.Cluster.ScanJobs` | internal/runtime/kubernetes/procedure_attempts.go:100-125 | fails exactly if a succeeded job of the procedure cannot be deleted, and then only succeeded ones are gone; otherwise the next number and the youngest reusable job |
| `KubernetesProcedures.Cluster.CreateOrReuse` | internal/runtime/kubernetes/procedure_attempts.go:83-157 | exactly when it fails and what is then gone; otherwise the youngest job that has neither succeeded nor failed, or a new one with a number above all that are left |
| `KubernetesProcedures.MoveKeepsInvariant` | internal/runtime/kubernetes/procedure_attempts.go:83-157 | choosing, status reports and deletions keep names consistent with numbers and at most one reusable job |
| `KubernetesProcedures.JobsOverRuns` | internal/runtime/kubernetes/procedure_attempts.go:83-157 | starting from no jobs there is at most one job to reuse, and a new attempt never takes the name of a job that is still there |
| `KubernetesProcedures.Cluster.RunCommand` | internal/runtime/kubernetes/procedures.go:17-140 | in restart mode the run takes up at the latest procedure with an active job, after deleting exactly the active jobs before it, and fails before any procedure if and only if one cannot be deleted; in other modes it starts at the first; absent failures exactly the non-nil procedures from there on run, in order, otherwise it stops at the first that does not pass; the exact observations |
| `KubernetesProcedures.RunFrom` | internal/runtime/kubernetes/procedures.go:42-140 | the same conditions for where a run stops, over the procedures from a given start index that are not nil |
| `Traffic.PodTrafficStore.Record` | internal/runtime/kubernetes/traffic.go:67-102 | the stored samples, last increase and last activity of the pod after a record; other pods are untouched |
| `Traffic.RecordedExactly` | internal/runtime/kubernetes/traffic.go:67-102 | the increase over the sample before, the time of it, and the samples of the last 24 hours |
| `Traffic.PodTrafficStore.RecordNext` | internal/runtime/kubernetes/traffic.go:67-102 | what is stored of a pod stays what replaying its whole history gives |
| `Traffic.RetainedSamples` | internal/runtime/kubernetes/traffic.go:81-86 | with times that do not go back, pruning on every record comes to pruning the whole history once |
| `Traffic.RxDelta` | internal/runtime/kubernetes/traffic.go:104-120 | the increase since the first sample in the window, or since the very first one if the window is empty; 0 when the counter went back; the last increase without a window |
| `Traffic.PrunedDelta` | internal/runtime/kubernetes/traffic.go:104-120 | for windows of up to a day that end with the last record, the pruned samples give the increase of the whole history |
| `Traffic.LastIncrease` | internal/runtime/kubernetes/traffic.go:71-78 | the last increase is that of the last two samples ever recorded, pruned or not |
| `Traffic.LastActivity` | internal/runtime/kubernetes/traffic.go:73-93 | the last activity is the time of the most recent increase in the whole history, and missing exactly if there was none |
| `Traffic.ReadyWindows` | internal/runtime/kubernetes/traffic.go:122-130 | a window is ready if and only if two samples are left and one of the last day lies before it, so never if it is longer than a day |
| `Traffic.SeenAndUnseen` | internal/runtime/kubernetes/traffic.go:104-120 | for every history, also with counters that go back: what the samples of a window recorded as received is the increase the code computes plus what it does not see, the increase of the first sample in the window and what a reset swallowed |
| `Traffic.GrowingHidesEdge` | internal/runtime/kubernetes/traffic.go:104-120 | a counter that never goes back hides the increase of that first sample only |
| `Traffic.DeltaTelescopes` | internal/runtime/kubernetes/traffic.go:104-120 | for a counter that never goes back the increase is the sum of all single increases after the first sample in the window |
| `Traffic.DeltaGrowsWithWindow` | internal/runtime/kubernetes/traffic.go:104-120 | and it never shrinks with a longer window |
| `Traffic.TotalDelta` | internal/runtime/kubernetes/traffic.go:139-145 | the sum over pods, kept in 64 bits |
| `Traffic.AllReady` | internal/runtime/kubernetes/traffic.go:147-157 | at least one pod, and on every pod two samples of which the first lies before the window |
| `KeepAlive.MakeStopper` | internal/runtime/kubernetes/keepalive.go:16-50 | exactly when a stopper watches, and that it then has a threshold with port, bytes and window of every declared rule, in the order of the ports, and no other; exactly when it fails |
| `KeepAlive.StopIfIdle` | internal/runtime/kubernetes/keepalive.go:51-107 | stops if and only if every threshold's window has elapsed and was missed and the deletion succeeds; fails if only the deletion does |
| `KeepAlive.MissedExactly` | internal/runtime/kubernetes/keepalive.go:82-96 | a threshold is missed if and only if every pod was watched for its window and the 64-bit sum of the increases the code computes, taken over the whole history, is below it |
| `KeepAlive.MissedMeansLess` | internal/runtime/kubernetes/keepalive.go:82-96 | a missed threshold has received less than it demands, by what all samples of the window recorded, if and only if the sum fits 64 bits and what the increases hide is less than what is missing |
| `KeepAlive.StopIsSound` | internal/runtime/kubernetes/keepalive.go:77-96 | a job is stopped only if, for every threshold, it is a window old and every counted pod was watched for the window; it received less than the threshold exactly under the condition above |
| `KeepAlive.DeclaredRulesDecide` | internal/runtime/kubernetes/keepalive.go:16-96 | from declaration to decision: a job is found idle exactly if, for every declared rule, its window is over, every pod was watched for it, and the 64-bit sum of what the counters show is below the rule's bytes |
| `KeepAlive.OnePodIsIdle` | internal/runtime/kubernetes/keepalive.go:82-96 | for one pod the sum cannot wrap; with a counter that never goes back it received less if and only if the increase and that of the first sample in the window together are below the threshold |
| `KeepAlive.ResetStops` | internal/runtime/kubernetes/traffic.go:104-120 | an input for every threshold: a counter that goes back hides the bytes before, so a pod that received them is idle |
| `KeepAlive.EdgeStops` | internal/runtime/kubernetes/traffic.go:104-120 | an input for every threshold of less than a day: a pod whose only sample in the window recorded the bytes is idle, although it was active at the very time of the stop |
| `KeepAlive.LongWindowNeverStops` | internal/runtime/kubernetes/traffic.go:122-130 | a threshold over more than a day keeps its job alive for good |
| `KeepAlive.WrappedSumStops` | internal/runtime/kubernetes/traffic.go:139-145 | the sum can wrap: for every threshold of up to a day, an input that received at least 2^64 bytes and counts as having received nothing |
| `HotReload.WatchService.EnterBuild` | internal/core/services/watch_service.go:372-386 | what each trigger changes: the flag while a build is active, a builder with the current commands when idle, nothing without commands |
| `HotReload.WatchService.RunPass` | internal/core/services/watch_service.go:404-413 | one pass builds all captured commands in order |
| `HotReload.WatchService.LeaveBuild` | internal/core/services/watch_service.go:415-422 | a builder goes round again, with the commands it captured, exactly if a change was flagged; otherwise it is gone |
| `HotReload.StepKeepsOneBuilder` | internal/core/services/watch_service.go:372-422 | the flag and the builder stay in step and there is at most one builder |
| `HotReload.NoLostTrigger` | internal/core/services/watch_service.go:372-424 | over every interleaving: at most one builder, and when the service is idle every trigger that was not ignored was answered by a pass that started after it and built all its commands |
| `HotReload.TriggersAreConserved` | internal/core/services/watch_service.go:372-382 | over every run, exactly the triggers that find neither a build nor a command are ignored and all others are taken, once each |
| `HotReload.IgnoredOnlyWithoutCommands` | internal/core/services/watch_service.go:379-382 | a run in which there are always commands ignores no trigger, whatever the interleaving |
| `HotReload.PassesAreTriggered` | internal/core/services/watch_service.go:372-424 | triggers are coalesced, never multiplied: at most as many passes as triggers |
| `RuntimePorts.AssignedPort` | apps/druid/core/services/runtime_ports.go:17-33 | succeeds if and only if all assignments of the port are valid and agree, and then gives the agreed port |
| `RuntimePorts.ResolveRuntimePorts` | apps/druid/core/services/runtime_ports.go:9-44 | succeeds exactly if for every dynamic port all assignments that name it are valid and agree, and there is one if required; fixed and unassigned ports stay, others get the assigned port |
| `RuntimePorts.OrderDoesNotMatter` | apps/druid/core/services/runtime_ports.go:17-33 | neither success nor result depend on the order or repetition of assignments |
| `RuntimePorts.MergeRuntimePorts` | apps/druid/core/services/runtime_ports.go:46-63 | the scroll's ports stay and the first reservation of every new name is appended, in order; refused exactly if some reservation differs in port or protocol from the last scroll port of its name or, without one, from the first reservation of its name |
| `RuntimePorts.RefusedExactly` | apps/druid/core/services/runtime_ports.go:46-63 | a merge is refused if and only if some reservation conflicts with the port its name stands for |
| `RuntimePorts.MergeRepresents` | apps/druid/core/services/runtime_ports.go:46-63 | a merge keeps the scroll's ports and represents every reservation under its name |
| `RuntimePorts.MergeTwice` | apps/druid/core/services/runtime_ports.go:46-63 | merging the same reservations again succeeds and changes nothing |
| `RuntimePorts.ValidateUnchanged` | apps/druid/core/services/runtime_ports.go:65-90 | accepts exactly if both routings resolve, to the same ports |
| `RuntimePorts.RoutedScroll.ApplyRouting` | apps/druid/core/services/runtime_session_runtime.go:49-66 | refused exactly if something runs and the ports would change or not resolve; the routing changes only if accepted |
| `RuntimePorts.RunningPortsAreStable` | apps/druid/core/services/runtime_session_runtime.go:49-66 | any sequence of calls while running, refused ones included, leaves the resolved scroll ports unchanged |
| `RuntimePorts.PreserveRoutingAssignments` | apps/druid/core/services/runtime_update.go:108-128 | keeps, in order, exactly the assignments whose port name is the name of a declared port |
| `RuntimePorts.PreservedResolvesTheSame` | apps/druid/core/services/runtime_update.go:108-128 | with a port name on every assignment an update changes neither success nor result of resolving |
| `RuntimePorts.PreservedExactly` | apps/druid/core/services/runtime_update.go:108-128 | routing that resolves keeps its result if and only if every dynamic port with an assignment has one with a declared port name |
| `RuntimePorts.UnnamedAssignmentIsLost` | apps/druid/core/services/runtime_update.go:118-126 | an input where the result changes: an assignment that names its port by its own name only is dropped |
| `OciSearch.LookAt` | internal/core/services/registry/oci.go:443-454 | the first successor that is the file is found; otherwise new containers are queued behind the others, once each, in their order |
| `OciSearch.Search` | internal/core/services/registry/oci.go:428-457 | ends on every finite graph; what it finds is listed by a reachable container, and with contents determined by digests by a nearest one: no container on a shorter chain lists the file or cannot be fetched |
| `OciSearch.ShortChainIsKnown` | internal/core/services/registry/oci.go:434-455 | every chain no longer than the current depth ends in a container whose content the search knows, no deeper than the chain is long |
| `OciSearch.OpenedByWord` | internal/core/services/registry/oci.go:468-474 | a descriptor is opened if and only if its media type contains the word manifest or index, compressed or not |
| `OciSearch.ChainIsOpened` | internal/core/services/registry/oci.go:434-455 | when nothing is queued any more, the content of every container reachable from the root has been opened |
| `OciSearch.FetchFile` | internal/core/services/registry/oci.go:428-457 | not found if and only if no container reachable from the root lists the file under its path or title, and otherwise the nearest container that lists it, or cannot be fetched, decides |
| `Paths.CleanInsideIsPlain` | internal/utils/fs.go:263-267 | a cleaned path that does not start with a parent step has none anywhere |
| `Paths.CleanLaws` | internal/utils/fs.go:263-267 | cleaning component by component: empty and . change nothing, a name is appended, .. takes back a name before it and stays where there is none |
| `Paths.CleanTwice` | internal/utils/fs.go:263-267 | cleaning twice changes nothing |
| `Paths.SplitIsOnly` | internal/utils/fs.go:255-268 | splitting gives the one way to write a path as components without slashes |
| `Chunks.ResolvedIsInside` | internal/utils/fs.go:255-268 | a resolved chunk path names something strictly inside the data directory |
| `Chunks.ExpandChunkPaths` | internal/utils/fs.go:221-253 | with a pattern every match is returned, or none if the pattern is malformed or a match escapes; without one the resolved path |
| `Chunks.ExpandParentRemainder` | internal/utils/fs.go:270-306 | exactly the entries of the parent that no child lies in, with the error cases of unreadable parents and of a child that is not strictly inside |
| `Chunks.ExpandChunkNode` | internal/utils/fs.go:173-219 | the recursive loops compute the expansion, or fail, exactly as the functional one |
| `Chunks.ChildrenExactly` | internal/utils/fs.go:198-209 | the children of a parent fail if and only if one of them cannot be expanded or leads out of the parent |
| `Chunks.ValidateNoOverlap` | internal/utils/fs.go:308-319 | accepts if and only if all paths are pairwise incomparable |
| `Chunks.AutoChunk` | internal/utils/fs.go:115-124 | succeeds if and only if the expansion does and is pairwise incomparable; then every path lies in at most one chunk, every path a childless declaration stands for, also each match of a pattern at any depth, is a chunk, and every chunk is such a path or an entry of a parent |
| `Chunks.RemainderAvoidsChildren` | internal/utils/fs.go:284-304 | what is left over of a parent never overlaps a child |
| `Chunks.ExpandedWithin` | internal/utils/fs.go:190-216 | everything a declaration expands to at a path lies within it |
| `Chunks.CoveredExactly` | internal/utils/fs.go:270-306 | below an existing parent exactly what lies in no child's entry, and what the children cover, is covered |
| `Chunks.LeftOverInOneChunk` | internal/utils/fs.go:270-306 | a file whose first component is no child's lies in exactly one chunk of its parent |
| `Chunks.LeftOverIsPackedOnce` | internal/utils/fs.go:115-124 | and in exactly one chunk of the whole packing, however deep the parent is nested and whatever pattern it came from |
| `Chunks.MatchIsPackedOnce` | internal/utils/fs.go:241-252 | every match of a declared pattern without children is a chunk, and everything below it lies in this chunk and in no other |
| `Chunks.LeafIsPackedOnce` | internal/utils/fs.go:189-195 | the same for childless declarations at any depth |
| `Chunks.ChunksAreYielded` | internal/utils/fs.go:188-216 | nothing else is a chunk: each is a path of a childless declaration or an entry of a directory whose declaration has children |
| `SkippedChunks.CollectSkipPaths` | apps/druid/adapters/cli/worker_pull.go:190-204 | the recursion over nested chunks adds exactly the joined paths of the skipped ones |
| `SkippedChunks.ShouldSkip` | apps/druid/adapters/cli/worker_pull.go:265-273 | a path is skipped if and only if it is at or below a skip path |
| `SkippedChunks.JoinedIsResolved` | internal/utils/fs.go:255-268 | for one declared path the update's path is the packed path if and only if it is relative, has no trailing blanks, and leading blanks only on a name that later parent steps take back |
| `SkippedChunks.SkipPathIsChunkPath` | apps/druid/adapters/cli/worker_pull.go:195-198 | an update leaves alone exactly the paths a skipped chunk is packed under if and only if: without a pattern, the condition above holds; with a pattern, the literal path is itself a match and contains all others |
| `SkippedChunks.MatchesAreOverwritten` | internal/utils/fs.go:221-253 | of the matches of a pattern an update leaves alone only one that has the pattern as its name, and it leaves alone exactly what is packed if and only if that is the only match |
| `SkippedChunks.ChildOfMatch` | apps/druid/adapters/cli/worker_pull.go:201-201 | a child chunk below a match of its parent's pattern is left alone if and only if the match has the pattern as its name |
| `SkippedChunks.PatternIsNotSkipped` | apps/druid/adapters/cli/worker_pull.go:195-200 | an input: a skipped chunk with a pattern whose one match is packed and then overwritten |
| `SkippedChunks.NestedSkipPaths` | apps/druid/adapters/cli/worker_pull.go:190-204 | over all nesting levels: without patterns, absolute paths and harmful blanks the skip paths are exactly the paths the skipped chunks are packed under |
| `SkippedChunks.SkippedIfPacked` | apps/druid/adapters/cli/worker_pull.go:265-273 | and then an update leaves a path alone if and only if it was packed in a chunk that updates skip |
| `SkippedChunks.DataIsNotSkipped` | apps/druid/adapters/cli/worker_pull.go:265-273 | and never the data directory as a whole |
| `WorkerUpdate.Target.Copy` | apps/druid/adapters/cli/worker_pull.go:234-263 | the pruned walk copies exactly what the filtered tree wants, touches nothing else even on failure, and fails exactly if a file and a directory clash |
| `WorkerUpdate.Target.CopyChildren` | apps/druid/adapters/cli/worker_pull.go:234-263 | the same for the entries of a directory |
| `WorkerUpdate.Target.CopyDataUpdate` | apps/druid/adapters/cli/worker_pull.go:234-263 | the data directory is there in any case; its content is the merge |
| `WorkerUpdate.Target.ReplaceEntry` | apps/druid/adapters/cli/worker_pull.go:224-229 | any other entry becomes an exact copy, whatever was there |
| `WorkerUpdate.Target.MergePulledRoot` | apps/druid/adapters/cli/worker_pull.go:206-232 | the whole tree after an update, exactly when an update fails, and that skipped data is kept even then |
| `WorkerUpdate.Target.UpdateFromPull` | apps/druid/adapters/cli/worker_pull.go:144-164 | the same with the skip paths of the pulled scroll's own chunks: the whole result and the exact failure condition |
| `WorkerUpdate.PackedIsKept` | apps/druid/adapters/cli/worker_pull.go:234-263 | with such declarations everything packed in a skipped chunk survives an update, also one that fails |
| `WorkerUpdate.DataFrames` | apps/druid/adapters/cli/worker_pull.go:234-263 | data at or below a skip path or absent from the source is unchanged, all other source data is as in the source |
| `WorkerUpdate.EntryFrames` | apps/druid/adapters/cli/worker_pull.go:214-230 | other source entries are exact copies, remaining entries are untouched |

## Left out

- Session.RuntimeSession.AddQueueItem: ends where the source triggers the queue; waiting on the done channel and the error a waiter reads afterwards are not modelled.
- Session.RuntimeSession.RunQueue: runs without interleaved steps; interleavings are in the step relation only.
- Session.RuntimeSession.RefreshCommandState: reads the store and takes the statuses over in one step; in the source a status that is written in between can be overwritten by the older one, and the step relation has no step for that, so the theorems about runs speak of sessions in which it does not happen.
- Session.RuntimeSession.StopRuntime: starts with the queue work drained; the five-second limit on draining is not modelled.
- Session.RuntimeSession.AutoStartServe: the walk runs without interleaved steps; the gap between its two locks is in the step relation.
- SchedulerSingleRun.SingleRun: needs that no running command is remembered as done; SchedulerDoubleRun shows that the source does not guarantee it.
- SchedulerStop.UnaidedExactly: leaves aside commands that name themselves among their needs.
- SchedulerDoubleRun.GuardIsExact: for a command with restart or persistent needs it covers idle sessions in which these count as done; otherwise such a dependency only becomes Done by being remembered itself.
- SchedulerDoneChannel.RestartClosesTwice: the needs of the command run once to an end, because a restart or persistent dependency is not Done again for the second run unless it is remembered.
- SchedulerProgress.RoundsCompleteQueue: covers commands in the modes always and once; restart commands never complete, persistent ones stay in flight.
- RuntimePorts.RunningPortsAreStable: is about the ports of the scroll; reserved ports are not checked by the source when routing is applied.
- Chunks.AutoChunk: without the check for symlinks between chunks, and only with declared chunks; chunk names are left out.
- OciSearch.FetchFile: ends with the descriptor that is found; fetching its content is not modelled.
- DockerAttempts.Engine.CreateOrReuse: an engine call that fails, and a container without a state, are not modelled.
- Queue items are values with identity numbers rather than objects: a run goroutine that still holds a replaced item is told from the live one by its number, and its later writes to the replaced item (restart count, request-scoped values) are left out.
- Restart counts and backoff delays, request-scoped procedure values, exit codes persisted beside a status.
- WaitUntilEmpty and its notifiers: notifications can be dropped, so nothing is claimed about them.
- Adding, removing or editing commands during a run, updates and restores of the session record.
- The file system watch, debouncing and broadcasting of the hot reload service.
- Docker, Kubernetes, registry, database and file system calls themselves, their errors beyond those above, file modes and symlinks.
- HTTP handlers, command line, clients, authentication, console streaming, parsing of YAML and JSON.
