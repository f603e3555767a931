# librr, modelled and proved in Dafny

librr runs many user threads (uthreads) on one kernel thread, records what the
kernel and the scheduler decided, and replays a program from that record. This
project models its scheduler, its io_uring wake-ups, its recorder and replayer
and its call wrappers, and proves what they guarantee over every program and
every run.

`dafny verify dfyconfig.toml` checks the whole project.

## How the project is laid out

- `Words`, `Events`, `Layout`: fixed-width integers, the 24-byte header and 112-byte
  events of the log, and where each of their fields is, byte by byte.
- `Calls`: the intercepted calls as pairs. The record side turns the kernel's
  result into a reply and a logged image. The replay side rebuilds a reply from
  the image.
- `Runtime`: the runtime as a state machine. `swapcontext` becomes a phase (user
  code runs, or the scheduler loop runs) and a saved context per uthread. A
  uthread is named by its table slot, which stands for its address; its 64-bit
  id is a field that wraps around.
- `RuntimeInvariants`: the global invariant `Inv` and its preservation by every
  action, hence over every run.
- `Effects`: what each action does and what it leaves alone, seen from outside.
- `Guarantees`, `Permutations`, `Deadlock`: what follows for every run.
- `HeapScheduler`, `HeapRuntime`: uthread objects, the intrusive run queue, the
  growing table and the ring, updated in place. Each operation is proved to be
  the action of `Runtime` it stands for.
- `Recorder`, `Replayer`, `Wrappers`: the buffered log, the reader and the
  wrappers as imperative classes and methods with their loops.
- `Machines`: a deterministic program (memory, next request, effect of an answer)
  run in record mode and in replay mode.
- `Requests`, `Recordings`, `Answers`: what each step of both modes tells the program
  and adds to the log, and what that comes to over whole recordings.
- `Lockstep`, `Lagging`, `Determinism`, `Divergence`: exactly when a replay shows
  the same switches and the same answers as the recording.
- `Replays`: what holds in every state of every replay, whatever the log holds.
- `CutLogs`: what the replay of a log that is cut off, or lost batches, shows.
- `Sessions`: a whole recording session on the heap, the file it leaves, and a replay
  opened on that file.

The main theorem is `Determinism.ReplayReproducesIffClean`. The repository's
documentation (`README.md:271-279`) promises that replay gives the same
interleaving, results and data. The code keeps that promise exactly for two kinds
of recording, looked at until the last thing they show:

- Clean ones. No other uthread was switched to and no signal was logged while a
  call was suspended, and the log could carry the result of every call
  (`Calls.Faithful`: at most 64 data bytes, a uid below 2^31, a non-negative pid, a
  path of at most 64 bytes in a caller's buffer).
- Accidental ones. The first step that is not clean logged a signal during a
  suspended call, and from then on no switch was shown and every call failed with
  EPROTO, which is also what the replay answers once it reads the log too early
  (`Lagging`).

There is no assumption on the program or on what the kernel answers. `Divergence`
holds small recordings of every kind that break the promise, and one that keeps it
by accident.

Where documentation and code disagree the model follows the code.
`README.md:279` says that any deviation aborts. The code aborts only when a switch
does not match (`librr/src/scheduler.c:134-138`); a call that does not match
returns -1 (`librr/src/syscall_wrappers.c:72-74`) and the program runs on.

I/O enters as parameters. `Recorder.WriteOutcome` and `Replayer.ReadOutcome`
script how write(2) and read(2) behave (short, interrupted, failing).
`Machines.Choice` says which completion the kernel delivers with which result.
The start time and the process id of the header are arguments.

## Model

| member | source | states |
|---|---|---|
| `Determinism.ReplayReproducesIffClean` | README.md:271-279 | for every program, every recording and every behaviour of the kernel, some point of the replay shows exactly the recorded switches and answers if and only if, up to the last thing shown, the recording is clean, or its first unclean step logged a signal during a suspended call and nothing but EPROTO answers and no switch followed |
| `Determinism.CleanRecordingReplays` | librr/src/scheduler.c:115-152 | the replay of a clean recording reaches a live state with the same trace and memory, and with the same scheduler unless a call is still suspended |
| `Determinism.DirectProgramsReplay` | librr/src/syscall_wrappers.c:348-450 | programs that create, yield, join, exit and make only calls that do not suspend are replayed to the very same state, for every length of run, when the log carries their results |
| `Determinism.DisturbedCallFails` | librr/src/replay.c:151-157 | at the first call disturbed while suspended the replay agrees up to the call and then answers it with -1 and EPROTO |
| `Determinism.DisturbedFetch` | librr/src/replay.c:151-157 | the event such a call finds is the switch or the signal that disturbed it, so the fetch fails with EPROTO |
| `Determinism.LostResultDiffers` | librr/src/record.c:184-188 | at the first call whose result the log cannot carry the replay answers something else than the recording did |
| `Determinism.SignalDiverges` | librr/src/io_uring.c:72-78 | after a signal logged during a suspended call, the first switch shown or the first call answered with anything but EPROTO makes the replay differ for good |
| `Determinism.LagRun` | librr/src/replay.c:151-175 | until then the replay is behind in the log and nowhere else: same trace, same memory, every call answered with EPROTO |
| `Determinism.UncleanReproduces` | librr/src/replay.c:151-175 | a recording in which nothing else follows such a signal is reproduced all the same |
| `Lagging.StepLags` | librr/src/replay.c:140-188 | a step that shows no switch and no answer but EPROTO keeps the replay aligned and lagging |
| `Lagging.StepParts` | librr/src/scheduler.c:131-142 | any other step that shows something makes a lagging replay show something else or abort |
| `Lagging.LeftoverAnswer` | librr/src/replay.c:151-175 | whichever leftover event a call finds, a signal or a call that failed with EPROTO, it is answered as if the fetch had failed with EPROTO |
| `Lagging.EchoIff` | librr/src/syscall_wrappers.c:34-48 | for every call and result, the recorded answer equals that of a failed replay if and only if the kernel reported EPROTO and the call is not getpid or getuid |
| `Determinism.SwitchDiverges` | librr/src/scheduler.c:131-142 | a switch logged during a suspended call makes the replay differ for good |
| `Determinism.LossDiverges` | librr/src/syscall_wrappers.c:63-102 | a result the log cannot carry makes the replay differ for good |
| `Determinism.SoleCallerAnswered` | librr/src/io_uring.c:59-85 | while the current uthread is alone in a call, the next thing a recording shows, if any, is the kernel's answer to that very operation, whatever signals arrive |
| `Determinism.NeverRecovers` | librr/src/replay.c:90-110 | a replay that has once shown something else never shows what the recording showed |
| `CutLogs.CutLogReplay` | librr/src/replay.c:96-99 | the file of a clean recording cut off at any byte behind its first event: the replay shows exactly the recording up to the last whole event, and in every later step a call is answered with ENODATA, a switch aborts and nothing else is shown but answers that need no log |
| `CutLogs.LostBatchReplay` | librr/src/record.c:85-94 | the same for a file from which failing writes dropped whole batches, with EPROTO or ENODATA from the first dropped batch on |
| `CutLogs.ReplayEnds` | librr/src/replay.c:90-188 | the same for every reader that finds the first events of a clean recording and nothing usable behind them |
| `CutLogs.EndedSteps` | librr/src/scheduler.c:131-142 | one replay step without a usable log: a call fails, a switch aborts, any other step goes on |
| `CutLogs.CleanLogsOne` | librr/src/record.c:165-223 | a clean recording step logs at most one event |
| `CutLogs.EmptyLogIsOff` | librr/src/init.c:94-101 | a file without one whole event never makes the runtime active |
| `Sessions.RecordSession` | librr/src/record.c:115-223 | from `RecordInit` over the first switch and every event of a run to shutdown: without write errors the file on disk is the header and every event, and otherwise the account of kept and lost events holds |
| `Sessions.OpenRecorded` | librr/src/replay.c:52-79 | a replay opened on the file of a session accepts its header and stands in front of the first event, when no write or read fails |
| `Sessions.RecordAndReadBack` | librr/src/replay.c:90-110 | a log written by the recorder and read by the replayer, under any short and interrupted writes and reads, comes back event by event and then ENODATA |
| `Requests.ServeTells` | librr/src/uthread.c:222-249 | create tells the caller the new id, or EINVAL without a function; yield and exit tell nothing; the memory is what the program makes of the answer |
| `Requests.JoinTells` | librr/src/uthread.c:170-201 | a join on a known id tells EDEADLK to the uthread itself, the value of a finished target at once, EBUSY if somebody else waits, and otherwise nothing yet |
| `Requests.JoinTellsNobody` | librr/src/uthread.c:174-177 | a join on an id nobody carries tells ESRCH and changes nothing |
| `Requests.RecordedCallTells` | librr/src/syscall_wrappers.c:90-102 | clocks, ids, getcwd and empty reads and writes are answered at once with the kernel's answer and logged; every other call blocks its caller and logs nothing yet |
| `Requests.RecordedDispatchTells` | librr/src/scheduler.c:131-148 | a dispatch shows the switch if the uthread is another one, then tells it what it waited for: its start, its yield, the value its join target exited with, or the kernel's answer to its call |
| `Requests.CompletionTells` | librr/src/signal.c:118-130 | a completion tells nobody anything; a signalfd read of at least 128 bytes is logged with its number under the current uthread and ends the run on signals 2 and 15, and nothing else is logged |
| `Requests.ReplayedCallTells` | librr/src/syscall_wrappers.c:50-86 | a replayed call is told what its event rebuilds, or fails with the error of the check, and its caller goes on |
| `Requests.ReplayedDispatchTells` | librr/src/scheduler.c:131-148 | a replayed dispatch whose switch is confirmed shows and tells what a recording would; otherwise the replay stops as it stands |
| `Divergence.RacingReadIsNotReproduced` | librr/src/io_uring.c:15-22 | a three-step recording (create, read, switch) that no step of any replay reproduces |
| `Divergence.LongReadIsNotReproduced` | librr/src/record.c:184-188 | the recording of one read, for every result of more than 64 bytes, that no replay step reproduces |
| `Divergence.SignalledReadIsReproducedIff` | librr/src/io_uring.c:72-78 | the recording of one read with a signal logged before it completes: for every result, it is reproduced if and only if the result is EPROTO |
| `Divergence.HighUidIsNotReproduced` | librr/src/syscall_wrappers.c:431-450 | a one-step recording of getuid, for every uid from 2^31 on, that no replay step reproduces |
| `Lockstep.CleanRunFollows` | librr/src/init.c:90-102 | from the first switch 0->1 on, for every number of clean steps there is a replay step in lockstep with the recording |
| `Lockstep.StepFollows` | librr/src/scheduler.c:115-152 | one clean recording step is matched by at most one replay step |
| `Lockstep.DirectCallFollows` | librr/src/syscall_wrappers.c:348-377 | a call that does not suspend fetches its own event, and the states agree if the result is faithful |
| `Lockstep.ResumeAnswers` | librr/src/io_uring.c:15-22 | a call resumed undisturbed is answered by the kernel's result in the very state in which the replay makes the call |
| `Lockstep.CompletionFollows` | librr/src/io_uring.c:59-85 | a completion leaves the replay where it is, in the same state or in front of the same call |
| `Lockstep.ResumeFollows` | librr/src/syscall_wrappers.c:96-101 | a call resumed undisturbed is replayed without suspending, from its own event |
| `Lockstep.SwitchFollows` | librr/src/scheduler.c:131-148 | a switch outside calls passes the replay's check and gives the resumed uthread the same answer |
| `Lockstep.SubmitFollows` | librr/src/io_uring.c:15-22 | a call that suspends leaves the replay in front of the same call |
| `Lockstep.RequestFollows` | librr/src/uthread.c:170-201 | create, yield, join and exit give the same answers and schedulers in both modes |
| `Recordings.RecordedLogIsWellFormed` | librr/src/record.c:165-223 | every recorded log is numbered 1, 2, ..., starts with the switch 0->1, each switch leaves the uthread the previous one entered for another one, and every call and signal carries that uthread's id |
| `Recordings.EmitFits` | librr/src/record.c:209-223 | what each kind of event must satisfy for the log to stay well formed |
| `Recordings.RecordingKeeps` | librr/src/scheduler.c:115-152 | every state of every recording satisfies the runtime invariant, the validity of suspended calls and log well-formedness |
| `Recordings.RecordingIsRun` | librr/src/scheduler.c:115-152 | the runtime states of a recording are those of a run of the state machine |
| `Recordings.RecordingInv` | librr/src/io_uring.c:40-57 | in every state of every recording the invariant holds and exactly one signalfd read is in flight |
| `Recordings.FrontFinds` | librr/src/io_uring.c:15-22 | a dispatched caller finds the kernel's answer to its own operation in io_result |
| `Answers.CreatedIdIsNew` | librr/src/uthread.c:133-167 | the id create returns named nobody before, finds the new uthread now, and that uthread is runnable and last in the queue |
| `Answers.JoinReturnsExitValue` | librr/src/uthread.c:170-201 | a join that returns 0 was asked for by the uthread it returns to, does so after its target asked to exit, and returns the value of that exit |
| `Answers.JoinAskedByWaiter` | librr/src/uthread.c:183-195 | a uthread waiting in a join, or woken from one, asked for that very join itself |
| `Answers.DoneMeansExited` | librr/src/scheduler.c:210-217 | a DONE uthread asked earlier to exit with exactly the value it holds |
| `Answers.NeverRunsAgain` | librr/src/uthread.c:242-249 | over every recording, from the step after its exit on a uthread is DONE with the value it exited with and is never current in user code |
| `Answers.CallReturnsItsResult` | librr/src/io_uring.c:15-22 | a call returns the kernel's answer (-1 with the errno for a negative result, else the result and its bytes) to the operation that the answered uthread itself submitted for it, reaped by the step right before its dispatch |
| `Answers.WokenByItsCompletion` | librr/src/scheduler.c:97-113 | a caller is runnable only right after its own completion was reaped, alone in the queue, with that completion's result in io_result |
| `Answers.SubmittedByCaller` | librr/src/io_uring.c:87-99 | the operation a uthread waits for was submitted by that uthread for that very call |
| `Effects.CreateAddsOne` | librr/src/uthread.c:133-167 | create adds one runnable uthread with the next id at the end of table and queue, and its creator goes on |
| `Effects.YieldGivesWay` | librr/src/scheduler.c:189-198 | a yield queues the caller last and runs the scheduler; the next dispatch takes another uthread if one was queued |
| `Effects.YieldLetsOthersFirst` | librr/src/scheduler.c:189-198 | over every run a uthread that yields with k others queued runs again with exactly the (k+1)-th dispatch |
| `Effects.JoinOutcomes` | librr/src/uthread.c:174-195 | EDEADLK, an immediate value, EBUSY and waiting, each if and only if its condition on the target holds |
| `Effects.JoinFindsNobody` | librr/src/uthread.c:174-177 | ESRCH if and only if no uthread carries the id |
| `Effects.JoinSuspends` | librr/src/uthread.c:183-195 | a join on another unfinished uthread nobody waits for blocks the caller as its join_waiter; any other join changes nothing |
| `Effects.ExitEnds` | librr/src/scheduler.c:210-225 | an exit makes the caller DONE with its value and runs the scheduler whether or not anybody waits; the waiter and nobody else is queued |
| `Effects.ExitIsFinal` | librr/src/uthread.c:242-249 | over every run a uthread that exited keeps its value and never runs again |
| `Effects.SubmitBlocks` | librr/src/io_uring.c:87-99 | a suspending call puts exactly one operation in flight, tagged with its caller, and blocks the caller on it |
| `Effects.CompletionLeaves` | librr/src/io_uring.c:72-81 | a reaped operation is no longer in flight; the signal read is replaced by a new one and changes no uthread |
| `Effects.CompletionWakes` | librr/src/scheduler.c:97-113 | the caller of a reaped operation and nobody else becomes runnable, with the result in its io_result |
| `Effects.DispatchTakesFront` | librr/src/scheduler.c:144-148 | a dispatch runs exactly the front of the queue |
| `Effects.OthersUntouched` | librr/src/scheduler.c:97-225 | every action leaves every uthread it does not concern exactly as it was |
| `Effects.FieldsChangeOnlyIn` | librr/src/scheduler.c:97-225 | ids never change; a value changes only in its owner's exit, a join_waiter only in a join, the current uthread only in a dispatch |
| `Effects.StrayWakesIgnored` | librr/src/scheduler.c:99-101 | in any state only a BLOCKED uthread is woken, by id or by an exit |
| `Effects.StrayEntriesDropped` | librr/src/scheduler.c:127-129 | in any state an entry that is not RUNNABLE is dropped and nothing else happens |
| `Effects.WaiterMayWaitAgain` | librr/src/uthread.c:188-194 | in any state the join_waiter itself may wait again |
| `Guarantees.BlockedForOneReasonInEveryRun` | librr/src/scheduler.c:200-225 | in every state of every run, from the start of either mode, a BLOCKED uthread is the tag of exactly one in-flight operation or the join_waiter of exactly one unfinished uthread, never both, and no other uthread is either |
| `Guarantees.BlockedForOneReason` | librr/src/uthread.c:183-194 | the same for every state that satisfies the invariant |
| `Guarantees.DispatchChoosesRunnable` | librr/src/scheduler.c:127-148 | the branch that skips an entry is dead, and the dispatched uthread is the only RUNNING one |
| `Guarantees.DoneForever` | librr/src/uthread.c:242-249 | a DONE uthread stays DONE with its value and never runs again, over every run |
| `Guarantees.BecomesDone` | librr/src/scheduler.c:216-217 | a uthread becomes DONE only by its own exit, with that exit's value |
| `Guarantees.ExitWakesJoiner` | librr/src/scheduler.c:219-222 | an exit makes the uthread blocked in a join on it runnable and queues it last |
| `Guarantees.ReapWakesAlone` | librr/src/io_uring.c:72-81 | a completion wakes the caller of that operation only, hands it the result and finds the queue empty |
| `Guarantees.BoundedWaiting` | librr/src/scheduler.c:24-52 | a uthread with k others ahead of it is chosen by the (k+1)-th dispatch from now and by none before |
| `Guarantees.MovesUp` | librr/src/scheduler.c:38-52 | after d dispatches a queued uthread has moved up exactly d places |
| `Guarantees.IdsGoodIff` | librr/src/uthread.c:133-133 | in every run of either mode ids are distinct, non-zero and never the signal sentinel if and only if the table holds at most 2^64-2 uthreads |
| `Deadlock.DeadlockIsPermutation` | librr/src/uthread.c:178-194 | when nothing is queued and no call is in flight, waits-for is a permutation of the unfinished uthreads without fixed points |
| `Deadlock.StuckOnCycle` | librr/src/uthread.c:183-194 | every stuck uthread lies on a join cycle, never merely behind one |
| `Deadlock.StuckCyclesDisjoint` | librr/src/uthread.c:188-191 | join cycles are disjoint: whomever a stuck uthread waits for, directly or not, waits for it |
| `Deadlock.DeadlockIsPermanent` | librr/src/scheduler.c:118-125 | in a deadlock only signals are reaped and no uthread ever changes again |
| `Deadlock.EmptyQueueIsStuck` | librr/src/scheduler.c:118-125 | every such state of every run, from the start of either mode, is a deadlock in that sense |
| `Replays.ReplayKeepsInv` | librr/src/scheduler.c:115-152 | every state of every replay satisfies the invariant, whatever the log holds and also after it has parted from the recording |
| `Replays.BlockedInReplay` | librr/src/scheduler.c:200-225 | in every state of every replay a BLOCKED uthread is the join_waiter of exactly one unfinished uthread, and no other uthread is anyone's |
| `Replays.EmptyQueueInReplay` | librr/src/scheduler.c:118-125 | a replay whose loop finds the queue empty is a deadlock of join cycles, and it spins there unchanged for ever |
| `RuntimeInvariants.NextKeeps` | librr/src/scheduler.c:97-225 | every action keeps the invariant: the queue holds exactly the RUNNABLE uthreads once each, exactly the current uthread runs in the user phase, joins and waiters match, operations and callers match |
| `RuntimeInvariants.RunInvariant` | librr/src/scheduler.c:115-152 | the invariant holds in every state of every run, and so does "exactly one signal read is in flight" |
| `RuntimeInvariants.JoinKeeps` | librr/src/uthread.c:170-201 | join keeps the scheduler part of the invariant in all its branches |
| `RuntimeInvariants.ExitKeeps` | librr/src/scheduler.c:210-225 | exit keeps it, whether or not somebody waits |
| `RuntimeInvariants.SubmitKeeps` | librr/src/io_uring.c:87-99 | submitting and blocking keeps the invariant |
| `RuntimeInvariants.ReapWakesCaller` | librr/src/io_uring.c:79-81 | a completion reaches exactly the uthread blocked on that operation |
| `RuntimeInvariants.CallReapKeeps` | librr/src/scheduler.c:97-113 | waking a caller keeps the invariant |
| `RuntimeInvariants.SignalReapKeeps` | librr/src/io_uring.c:72-78 | reaping and resubmitting the signal read keeps the invariant and the scheduler |
| `RuntimeInvariants.NextKeepsSignalRead` | librr/src/io_uring.c:40-57 | every action keeps exactly one signal read in flight |
| `RuntimeInvariants.FindById` | librr/src/scheduler.c:62-69 | lookup by id returns the one uthread that carries it, and nothing for any other id |
| `RuntimeInvariants.InitialStates` | librr/src/uthread.c:63-95 | both modes start in a state that satisfies the invariant |
| `Runtime.Find` | librr/src/scheduler.c:62-69 | the first slot carrying the id, or none if no slot does |
| `HeapScheduler.RunQueue.PopFront` | librr/src/scheduler.c:24-36 | the linked list loses and returns its first element and unlinks it; an empty list gives null |
| `HeapScheduler.RunQueue.Enqueue` | librr/src/scheduler.c:38-52 | the linked list gains an element at its end, provided it is not queued already |
| `HeapScheduler.ThreadTable.Find` | librr/src/scheduler.c:62-69 | the search loop returns the first entry with the id, or null if there is none |
| `HeapScheduler.ThreadTable.Register` | librr/src/scheduler.c:71-88 | the table gains an entry at its end through any doubling |
| `HeapScheduler.Scheduler.constructor` | librr/src/uthread.c:63-95 | the initial heap represents the initial state |
| `HeapScheduler.Scheduler.Find` | librr/src/scheduler.c:62-69 | the lookup on the heap is the lookup in the state it represents |
| `HeapScheduler.Scheduler.Create` | librr/src/uthread.c:133-167 | create on the heap is `Runtime.Create`, and returns the id it took |
| `HeapScheduler.Scheduler.Yield` | librr/src/scheduler.c:189-198 | yield on the heap is `Runtime.Yield` |
| `HeapScheduler.Scheduler.Block` | librr/src/scheduler.c:200-208 | block on the heap is `Runtime.Block` |
| `HeapScheduler.Scheduler.Join` | librr/src/uthread.c:170-201 | join on the heap takes the same decision and reaches the same state as the model, errors included |
| `HeapScheduler.Scheduler.Exit` | librr/src/scheduler.c:210-225 | exit on the heap is `Runtime.Exit` |
| `HeapScheduler.Scheduler.WakeById` | librr/src/scheduler.c:97-113 | a wake on the heap is `Runtime.Wake`, and writes io_result exactly when it wakes |
| `HeapScheduler.Scheduler.Choose` | librr/src/scheduler.c:119-129 | pops the front of the queue and returns it only if it is RUNNABLE |
| `HeapScheduler.Scheduler.Turn` | librr/src/scheduler.c:118-148 | one loop turn is `Runtime.Dispatch`, and yields the ids of the switch |
| `HeapRuntime.RecordTurn` | librr/src/scheduler.c:118-148 | one loop turn in record mode is `Runtime.Dispatch`, and logs the switch exactly when the ids differ; without write errors nothing is lost |
| `HeapRuntime.ReplayTurn` | librr/src/scheduler.c:118-148 | one loop turn in replay mode checks a switch between different uthreads against the log and aborts exactly when the check fails; a failing read or a missing header never lets one pass |
| `HeapRuntime.StartRecording` | librr/src/init.c:90-102 | recording starts with the switch 0->1, then is ready; without write errors nothing is lost |
| `HeapRuntime.ProcessSignal` | librr/src/signal.c:118-130 | a signal is logged for the current uthread; SIGINT and SIGTERM end the run with the whole log in the file if no write failed |
| `HeapRuntime.RecordWait` | librr/src/io_uring.c:59-85 | one completion in record mode on the heap: a whole siginfo is logged before the read is submitted again, SIGINT and SIGTERM end the process, anything else wakes its caller |
| `HeapRuntime.RecordingWaits` | librr/src/io_uring.c:72-81 | the completion step of a recording logs, ends the run and changes the runtime exactly as `RecordWait` does |
| `HeapRuntime.Machine.constructor` | librr/src/io_uring.c:40-57 | the machine starts valid, with the signal read in flight |
| `HeapRuntime.Machine.Submit` | librr/src/io_uring.c:87-99 | submitting on the heap is the model's action and keeps the invariant |
| `HeapRuntime.Machine.Wait` | librr/src/io_uring.c:59-85 | reaping one completion on the heap is the model's action and keeps the invariant; it says whether the signal read completed |
| `HeapRuntime.Machine.Turn` | librr/src/scheduler.c:118-148 | dispatching on the heap is the model's action and keeps the invariant |
| `HeapRuntime.Machine.Create` | librr/src/uthread.c:133-167 | create on the heap is the model's action and keeps the invariant |
| `HeapRuntime.Machine.Yield` | librr/src/scheduler.c:189-198 | yield on the heap is the model's action and keeps the invariant |
| `HeapRuntime.Machine.Join` | librr/src/uthread.c:170-201 | join on the heap is the model's action and keeps the invariant |
| `HeapRuntime.Machine.Exit` | librr/src/scheduler.c:210-225 | exit on the heap is the model's action and keeps the invariant |
| `Recorder.Disk.WriteDirect` | librr/src/record.c:66-83 | under any short and interrupted writes a prefix of the data reaches the file, all of it exactly on success, which is certain without a write error |
| `Recorder.LogBuffer.Flush` | librr/src/record.c:85-94 | the buffer is emptied; what it held, or a prefix after an error, is in the file |
| `Recorder.LogBuffer.Append` | librr/src/record.c:96-113 | the entry is buffered, after a flush exactly when it does not fit; an oversized entry goes to the file |
| `Recorder.EventLog.constructor` | librr/src/record.c:115-150 | a log whose header is written starts empty |
| `Recorder.RecordInit` | librr/src/record.c:115-150 | there is a log, with a buffer of its own, exactly if the whole header reached the file |
| `Recorder.EventLog.NextSeq` | librr/src/record.c:165-168 | the n-th event is numbered n in 64 bits |
| `Recorder.EventLog.Log` | librr/src/record.c:165-223 | the log gains the next numbered event; without write errors nothing is lost |
| `Recorder.EventLog.LogSyscall` | librr/src/record.c:170-191 | a ready runtime logs the call with at most 64 data bytes; one that is not ready logs nothing |
| `Recorder.EventLog.LogSignal` | librr/src/record.c:193-207 | a ready runtime logs the signal with the current uthread |
| `Recorder.EventLog.LogSwitch` | librr/src/record.c:209-223 | a switch is logged under the id switched to, ready or not |
| `Recorder.EventLog.Shutdown` | librr/src/record.c:152-163 | nothing stays in the buffer, and without write errors the file is the header and every event |
| `Recorder.BufferRefinesLog` | librr/src/record.c:66-113 | while no write failed, file and buffer together are the header and every event in order, and the file ends on an event boundary |
| `Recorder.SettleKeepsFate` | librr/src/record.c:85-94 | a flush that brings any number of bytes to the file, none, some or all of them, keeps the account of the events the file holds whole and in place |
| `Replayer.Source.ReadFull` | librr/src/replay.c:33-50 | under any chunking the buffer holds the next bytes exactly when enough are left; otherwise the file is consumed to its end |
| `Replayer.Replay.constructor` | librr/src/replay.c:52-79 | a file is accepted exactly if it holds a header with the magic and version |
| `Replayer.Replay.NextEvent` | librr/src/replay.c:90-110 | fetching is `Replayer.Fetch`; EINVAL without an accepted header; a read error is ENODATA, and success and EPROTO mean the same with or without read errors |
| `Replayer.Replay.ExpectSched` | librr/src/replay.c:112-138 | checking a switch is `Replayer.ExpectSwitch`, with the same errors |
| `Replayer.Replay.NextCall` | librr/src/replay.c:140-188 | fetching a call is `Replayer.NextSyscall` with the data length cut to 64, with the same errors |
| `Replayer.HeaderReadBack` | librr/src/replay.c:62-74 | the header read back from a log file is the header written |
| `Replayer.RecordedHeaderIsAccepted` | librr/src/record.c:133-139 | for every start time, process id and log, the header read back has the magic and version a replay asks for, that start time and that pid |
| `Replayer.FetchLogged` | librr/src/replay.c:96-109 | event k of a log file is fetched at its place, and ENODATA follows the last |
| `Replayer.LogRoundTrip` | librr/src/replay.c:90-110 | for every event list, the file read back gives the same events in the same order and then ENODATA |
| `Replayer.FileReadsLog` | librr/src/replay.c:112-188 | in front of event k a check succeeds exactly if the event is the one asked for, and consumes it either way |
| `Replayer.LossIsPermanent` | librr/src/replay.c:101-109 | when the file lacks the event numbered p+1, fetch n succeeds if and only if n < p, with event n |
| `Replayer.LostBatchEndsReplay` | librr/src/record.c:85-94 | if flushes that wrote nothing dropped whole batches, a reader gets exactly the events before the first dropped batch and no later fetch succeeds |
| `Replayer.CertainEventsAreRead` | librr/src/record.c:66-94 | whatever writes failed or stopped short, a reader gets in order all events before the first loss, up to the last record that a torn write completed |
| `Events.EventRoundTrip` | librr/include/rr_internal.h:60-82 | decoding an encoded event gives it back |
| `Events.PayloadRoundTrip` | librr/include/rr_internal.h:65-81 | decoding an encoded union gives it back |
| `Events.HeaderRoundTrip` | librr/include/rr_internal.h:45-51 | decoding an encoded header gives it back |
| `Events.EncodedRecord` | librr/src/record.c:190-190 | record k of an encoded list starts at byte 112k |
| `Events.EncodeAllConcat` | librr/src/record.c:111-112 | encoding is a homomorphism of concatenation |
| `Events.EncodeAllPrefix` | librr/src/record.c:111-112 | the first j records of an encoded list are the first 112j bytes |
| `Events.SeqNoStep` | librr/src/replay.c:108-108 | the reader's expected number advances as the writer's does, wrap-around included |
| `Layout.EventLayout` | librr/include/rr_internal.h:60-82 | the offset and value, byte by byte, of every field of each kind of event |
| `Layout.EventFields` | librr/include/rr_internal.h:60-64 | seq at 0, uthread_id at 8, the type number at 16, zeros at 20, the union at 24 |
| `Layout.HeaderLayout` | librr/include/rr_internal.h:45-51 | magic at 0, version at 4, start_time at 8, pid at 16, zeros at 20 |
| `Layout.RecorderFileStarts` | librr/src/record.c:133-141 | every recorded file starts with the bytes 47 4C 52 52 01 00 00 00, the start time and the pid |
| `Words.LittleEndianRoundTrip` | librr/include/rr_internal.h:45-51 | an n-byte little-endian image gives its value back |
| `Calls.ReplayAgreesIff` | librr/src/syscall_wrappers.c:27-189 | for every call and every result of the kernel, the replayed reply equals the recorded one if and only if `Faithful` holds |
| `Calls.RecordTells` | librr/src/syscall_wrappers.c:34-48 | for every call and result the recorded reply follows the C conventions, in terms of the raw result and its bytes alone: -1, (uid_t)-1 or NULL with the errno for a negative result, otherwise the result and the bytes |
| `Calls.ReplayRebuilds` | librr/src/syscall_wrappers.c:70-86 | for every call and every event whatever, the replayed reply is that of the event's result, with as much of its data as length and buffer allow |
| `Calls.FailureFails` | librr/src/syscall_wrappers.c:72-74 | for every call and error a call without an event gives -1, (uid_t)-1 or NULL with that error and stores nothing |
| `Calls.LoggedRecords` | librr/src/record.c:170-191 | for every call and result the event holds the raw result as an int32_t, the call's number, its descriptor, clock or size, and the front of its data followed by zeros |
| `Calls.UnfaithfulReplies` | librr/src/syscall_wrappers.c:410-450 | exactly what the replay tells when the log cannot carry the answer |
| `Calls.ReadReplaysPrefix` | librr/src/syscall_wrappers.c:63-102 | read and recv always replay return value and error, and the first min(n, 64) bytes |
| `Wrappers.FromRawResult` | librr/src/syscall_wrappers.c:34-48 | a negative raw result becomes -1 and errno, any other is returned and errno kept |
| `Wrappers.RecordRead` | librr/src/syscall_wrappers.c:90-102 | read and recv return the recorded reply and log the raw result with the bytes read; without write errors nothing is lost |
| `Wrappers.RecordTime` | librr/src/syscall_wrappers.c:372-377 | clock_gettime and gettimeofday return the real result and log it, a failure as its negated errno; without write errors nothing is lost |
| `Wrappers.RecordPlain` | librr/src/syscall_wrappers.c:127-131 | write, send, accept, connect, openat and close return the raw result, or -1 with its errno, and log it |
| `Wrappers.RecordEmpty` | librr/src/syscall_wrappers.c:90-94 | an empty read or write returns what the real call did and logs it, a failure as its negated errno |
| `Wrappers.RecordId` | librr/src/syscall_wrappers.c:424-450 | getpid and getuid return the real value and log it as an int32_t |
| `Wrappers.RecordGetcwd` | librr/src/syscall_wrappers.c:592-598 | getcwd returns what the real call did and logs at most size bytes of the path, a failure as its negated errno |
| `Wrappers.ReplayPlain` | librr/src/syscall_wrappers.c:110-117 | the replayed calls without data give the reply of their event, or -1 with the error |
| `Wrappers.ReplayGetuid` | librr/src/syscall_wrappers.c:437-443 | the same for getuid, -1 cast to uid_t |
| `Wrappers.GetEvent` | librr/src/syscall_wrappers.c:50-61 | fetches the current uthread's event, or leaves in errno EINVAL without an accepted header, ENODATA when no record can be read, EPROTO for the wrong event |
| `Wrappers.ReplayRead` | librr/src/syscall_wrappers.c:70-86 | the replayed read gives the reply of `Calls.ReplayReply`, the rest of the buffer untouched, or -1 with the error of `GetEvent`, failing reads included; a NULL buffer gets no bytes |
| `Wrappers.ReplayTime` | librr/src/syscall_wrappers.c:354-370 | the same for the two clocks in virtual time |
| `Wrappers.ReplayGetcwd` | librr/src/syscall_wrappers.c:570-590 | the same for getcwd, with the terminating NUL and the cut to the buffer, and NULL for a NULL buffer |

## Left out

- Guarantees.BoundedWaiting: like everything that uses the invariant it is stated for runs with at most 2^64-2 uthreads; `Guarantees.IdsGoodIff` shows that ids are ambiguous from then on.
- Replayer.LossIsPermanent: stated for logs of fewer than 2^64 events, after which numbers repeat.
- Recorder.SettleKeepsFate: bytes written behind a batch that stopped short are out of place, and nothing is claimed about them.
- Recorder.RecordInit: failures of mmap and open, which only end recording before it begins, are not modelled.
- HeapScheduler.ThreadTable.Register: a failing realloc, which makes create fail, is not modelled.
- HeapScheduler.Scheduler.WakeById: io_data and io_data_len are left out; rr_io_wait, the only caller, passes no data and nothing reads them.
- Wrappers.RecordRead: the model's log writes do not touch errno, whereas an interrupted write in the source may change it after the wrapper has set it.
- Wrappers.RecordTime: errno is not disturbed by the log write, as for RecordRead.
- Calls.ReplayAgreesIff: a raw result of -2^31, whose negation overflows in C, is not among the kernel's results.
- HeapRuntime.Machine.Create: as HeapScheduler.Scheduler.Create.
- HeapScheduler.Scheduler.Create: calloc, mmap, mprotect, getcontext and table growth are assumed to succeed. Failure after registration leaves a freed entry in the table (`librr/src/uthread.c:159-163`).
- HeapRuntime.Machine.Submit: io_uring_get_sqe and io_uring_submit are assumed to succeed, and the kernel completes every submitted operation once. A failed submit leaves the prepared entry in the ring (`librr/src/io_uring.c:16-18`).
- HeapRuntime.Machine.Wait: calls into the ring that fail or are interrupted are not modelled; the signal is processed in `HeapRuntime.RecordWait`.
- Termination of scheduler_loop: it may wait or spin for ever, so it is a step relation and a method for one turn.
- stat, fstat, lstat, uname, nanosleep and the address accept returns: longer than 64 bytes, or not recorded.
- Real-time replay, where clock readings come from outside the log.
- Passthrough when neither mode is active, dlsym, LD_PRELOAD, environment variables and debug output.
- ucontext, TLS bases, stacks, guard pages and the SIGSEGV handler.
