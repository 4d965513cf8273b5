# ThreadMaster Live, modelled in Dafny

ThreadMaster Live is a React app for teaching operating-system threading. Its
pages are small simulations that run on `setInterval`. This project models the
state and the update logic of five of them and proves what the pages show.

- **Landing page** (`Index.tsx`): five demo threads cycle through the states
  new, ready, running, waiting and terminated. On each tick a thread either
  stays where it is or moves one state on. A terminated thread starts over as
  new. Modules: `ThreadStates`, `Landing`.
- **Life cycle** (`Lifecycle.tsx`): a constant table gives each state its
  outgoing transitions. An animation walks the script new, ready, running,
  waiting, ready, running, terminated. Buttons select a state or follow one of
  its transitions. Module: `Lifecycle`, with the page as the class
  `LifecycleView`.
- **CPU scheduling** (`Scheduling.tsx`): Round Robin over four processes with
  bursts 6, 4, 8 and 3. The page keeps a ready queue of ids, a quantum
  countdown and a Gantt timeline. Consecutive ticks of the same process merge
  into one timeline block. Modules:
  - `RoundRobin` holds the value-level model. `Step` is one firing of the
    interval.
  - `SchedulingPage.SchedulingView` is the page's state. Its `Tick` is proved
    to equal `Step`.
- **Simulator** (`Simulator.tsx`): the user adds and removes threads and picks
  a threading model. The model sets how many kernel threads there are:
  - many-to-one gives one;
  - one-to-one gives one per thread;
  - many-to-many gives half the threads, rounded up, and at most four.

  Each firing makes four passes over the list in order: admit new threads,
  run the running ones, wake the waiting ones, and dispatch ready threads into
  the free kernel slots. Modules:
  - `Simulator` holds the passes as loop methods. Each method is proved
    against a function.
  - `SimulatorPage.SimulatorView` holds the page's state.
- **Synchronization** (`Synchronization.tsx`): three processes share a critical
  section guarded by a binary semaphore. A shared counter counts the processes
  that have left it. A separate button replays a lost update between two
  unsynchronized increments. In the source, that replay logs `Expected: 3`
  (the constant at line 88). The page's text for the same demo says
  `Expected: counter = 2` (line 309). The model follows the code and logs 3.
  Modules:
  - `Semaphore` holds the tick and its invariants.
  - `SemaphoreRun` covers the whole run from the reset state.
  - `SemaphorePage.SyncView` holds the page's state.

`BoundedLog` models the log panels. Each keeps only its newest lines: 20 on the
simulator page and 10 on the synchronization page.

Every random draw (`Math.random() > c`) is an input boolean, a "coin". Clock
readings enter as parameters. Each firing of an interval is one atomic step.

## Model

| member | source | states |
|---|---|---|
| ThreadStates.IndexOf | src/pages/Index.tsx:54-55 | `states.indexOf(s)` is the one position of `s` in the display order new, ready, running, waiting, terminated |
| Landing.NextState | src/pages/Index.tsx:54-60 | a terminated thread becomes new; any other thread keeps its state or moves to the next state in the display order, and it moves exactly when its coin comes up |
| Landing.LandingMove | src/pages/Index.tsx:54-59 | the move a tick allows one thread; `EveryMoveRealised` shows the tick produces exactly these moves and `LandingMovesAgainstTable` compares them with the life-cycle table |
| Landing.Tick | src/pages/Index.tsx:52-61 | a tick keeps the number of threads and every id, and moves each thread only as the landing page allows |
| Landing.InitialDemoIds | src/pages/Index.tsx:42-48 | the page starts with five demo threads, ids 1 to 5 in order |
| Landing.TickKeepsDemoIds | src/pages/Index.tsx:52-61 | whatever the coins, a tick keeps the five threads with ids 1 to 5 |
| Landing.NoWrapAround | src/pages/Index.tsx:55-59 | for a state that is not terminated, `(currentIndex + 1) % 5` never wraps: the next index is at most 4 |
| Landing.EveryMoveRealised | src/pages/Index.tsx:56-59 | every allowed move is produced by some coin, so the tick produces exactly the allowed moves |
| Landing.FiveAdvancesCycle | src/pages/Index.tsx:54-59 | five advancing ticks bring any thread back to its starting state |
| Landing.LandingMovesAgainstTable | src/pages/Index.tsx:54-59 | a landing move is a transition of the life-cycle table exactly for new, ready and running; waiting to terminated and terminated to new are not in the table |
| BoundedLog.Append | src/pages/Simulator.tsx:28-30 | for a capacity of at least 2, appending keeps the newest `cap` lines: the new line is last, and the length is the old length plus one, at most `cap` |
| BoundedLog.AppendAll | src/pages/Simulator.tsx:28-30 | consecutive `addLog` calls, one append per message; `AppendAllIsNewest` and `AppendAllKeepsNewest` state what the log then holds |
| BoundedLog.AppendIsNewest | src/pages/Synchronization.tsx:26-28 | one append to a log of at most `cap` lines leaves the newest `cap` lines of old log plus message |
| BoundedLog.AppendAllIsNewest | src/pages/Simulator.tsx:28-30 | many appends in a row leave the newest `cap` lines of the old log followed by all the messages |
| BoundedLog.AppendAllKeepsNewest | src/pages/Simulator.tsx:28-30 | after many appends the log has min(cap, old + new) lines, and they are a suffix of old log plus messages |
| BoundedLog.NewestTwice | src/pages/Simulator.tsx:28-30 | trimming in two stages keeps the same lines as trimming once |
| Lifecycle.Find | src/pages/Lifecycle.tsx:66 | `stateInfos.find` returns an entry of the table for that state, and returns nothing only when no entry has that state |
| Lifecycle.TableOrder | src/pages/Lifecycle.tsx:13-43 | the table lists the five states once each, in display order |
| Lifecycle.FindFirst | src/pages/Lifecycle.tsx:66 | the lookup returns the first entry for the state |
| Lifecycle.OneEntryPerState | src/pages/Lifecycle.tsx:13-43 | each state has exactly one entry, so the lookup of the active state always finds the entry that describes it |
| Lifecycle.Targets | src/pages/Lifecycle.tsx:264-269 | the transition buttons lead to the transitions' targets, one button each, in table order |
| Lifecycle.Successors | src/pages/Lifecycle.tsx:13-43 | the targets of the table entry for a state; `SuccessorsAreListed` spells them out and `OnlyTerminatedIsFinal` shows only terminated has none |
| Lifecycle.SuccessorsAreListed | src/pages/Lifecycle.tsx:13-43 | the table's successors: new to ready; ready to running; running to ready, waiting and terminated; waiting to ready; none for terminated |
| Lifecycle.OnlyTerminatedIsFinal | src/pages/Lifecycle.tsx:38-42 | a state has no outgoing transition exactly when it is terminated |
| Lifecycle.ListedWalkIsPath | src/pages/Lifecycle.tsx:13-43 | a walk along the listed transitions is a path of the table |
| Lifecycle.SequenceIsWalk | src/pages/Lifecycle.tsx:52 | the animation script is a path of the table from new to terminated |
| Lifecycle.ReachableFromNew | src/pages/Lifecycle.tsx:13-43 | every state is reachable from new by table transitions; a prefix of the script is the witness |
| Lifecycle.LifecycleView.constructor | src/pages/Lifecycle.tsx:46-47 | the page opens on new with the animation off |
| Lifecycle.LifecycleView.ToggleAnimation | src/pages/Lifecycle.tsx:81-88 | Animate/Pause flips the animation; starting it restarts the script at its first element |
| Lifecycle.LifecycleView.Tick | src/pages/Lifecycle.tsx:55-61 | a firing shows the next script element and moves the index on by one; the animation stops once the index passes the last element; nothing happens while it is off |
| Lifecycle.LifecycleView.Reset | src/pages/Lifecycle.tsx:91-94 | Reset stops the animation and shows new |
| Lifecycle.LifecycleView.Select | src/pages/Lifecycle.tsx:186-224 | clicking a node shows that state and leaves the animation alone |
| Lifecycle.LifecycleView.FollowTransition | src/pages/Lifecycle.tsx:264-269 | a transition button moves to that transition's target, which is a table edge out of the shown state |
| Lifecycle.PlayWholeAnimation | src/pages/Lifecycle.tsx:49-64 | a started animation shows exactly the script, in order, one state per firing; it stops by itself and ends on terminated |
| RoundRobin.FindIndex | src/pages/Scheduling.tsx:95 | `findIndex` gives the first position with that id, or -1 exactly when no process has it |
| RoundRobin.ActiveQueue | src/pages/Scheduling.tsx:67-70 | the active queue holds exactly the queued ids whose process exists and is incomplete |
| RoundRobin.WithoutFacts | src/pages/Scheduling.tsx:122 | removing an id keeps exactly the other ids and adds no repeats; it is one shorter when the id was queued once, and changes nothing when the id was not queued |
| RoundRobin.Rotate | src/pages/Scheduling.tsx:85 | after rotation the rotated id is at the back |
| RoundRobin.RotateFacts | src/pages/Scheduling.tsx:85 | rotation keeps the queued ids, adds the rotated one, and repeats none |
| RoundRobin.Without | src/pages/Scheduling.tsx:122 | the `filter(id => id !== x)` never lengthens the queue; `WithoutFacts` states which ids it keeps |
| RoundRobin.MergeTimeline | src/pages/Scheduling.tsx:101-118 | the timeline updater; `MergeKeepsTimeline` proves it keeps the chart gap-free and merged |
| RoundRobin.Choose | src/pages/Scheduling.tsx:77-92 | the selection, for either timing of the rotation updater; `ChoiceFacts`, `ChooseShape` and `ReadingsDiffer` state what it picks and how the queue changes |
| RoundRobin.RunChosen | src/pages/Scheduling.tsx:94-132 | running the chosen process; `RunKeepsInv`, `RunningTickRunsOne` and `QuantumBookkeeping` state its effect |
| RoundRobin.Step | src/pages/Scheduling.tsx:64-135 | one firing; `StepKeepsInv`, `StepShape`, `IdleTickOnlyStops` and `RunsToCompletion` state what it does |
| RoundRobin.InitialTable | src/pages/Scheduling.tsx:36-41 | the demo processes have distinct ids and full remaining times, and no work has been done on them |
| RoundRobin.InitialQueueOk | src/pages/Scheduling.tsx:43 | queue [1,2,3,4] lists each incomplete process exactly once |
| RoundRobin.InitialInv | src/pages/Scheduling.tsx:32-44 | the page's initial state satisfies the scheduling invariant for every quantum of at least 1 |
| RoundRobin.NoWorkLeft | src/pages/Scheduling.tsx:120-121 | the remaining work is never negative, and it is zero exactly when every process is completed |
| RoundRobin.ActiveIsWholeQueue | src/pages/Scheduling.tsx:67-70 | when every queued id is active, the filter keeps the whole queue |
| RoundRobin.QueueEmptyIffDone | src/pages/Scheduling.tsx:72-75 | under the invariant the queue is empty exactly when all processes are completed |
| RoundRobin.MergeKeepsTimeline | src/pages/Scheduling.tsx:101-118 | merging a tick keeps the chart gap-free from 0 to the new time, with no empty block and no two adjacent blocks of one process; it extends the last block exactly when the same process runs again |
| RoundRobin.FindAfterUpdate | src/pages/Scheduling.tsx:95-98 | updating a process in place keeps ids unique and every lookup by id |
| RoundRobin.ChoiceFacts | src/pages/Scheduling.tsx:77-92 | with work left and under either timing, the chosen id is incomplete and still queued after the rotation, the queue stays well formed and the quantum left is at least 1 |
| RoundRobin.ChooseShape | src/pages/Scheduling.tsx:77-92 | with no current process or an expired quantum, the head of the pre-tick queue is chosen with a fresh quantum; otherwise the current process continues with its quantum |
| RoundRobin.QueueAfterRun | src/pages/Scheduling.tsx:120-123 | running a process keeps the queue equal to the incomplete ids; a completing process leaves the queue |
| RoundRobin.RunKeepsTable | src/pages/Scheduling.tsx:94-130 | one unit of work keeps ids unique and 0 <= remaining <= burst; it marks the process completed exactly at remaining 0 and leaves the queue consistent |
| RoundRobin.RunAddsUsed | src/pages/Scheduling.tsx:98 | one unit of work adds exactly 1 to the total work done |
| RoundRobin.RunKeepsProcesses | src/pages/Scheduling.tsx:94-130 | a run keeps the process table and queue invariant, and records the process that ran as the current one |
| RoundRobin.RunKeepsClock | src/pages/Scheduling.tsx:98-132 | after a run the time still equals the total work done, and the timeline tiles [0, time) |
| RoundRobin.RunKeepsInv | src/pages/Scheduling.tsx:94-132 | running a chosen active process keeps the whole invariant |
| RoundRobin.StepKeepsInv | src/pages/Scheduling.tsx:64-135 | every firing, under either timing of the rotation updater, keeps the invariant: no duplicate or completed id in the queue, time = Σ(burst − remaining), and a well-formed timeline |
| RoundRobin.StepShape | src/pages/Scheduling.tsx:72-92 | with work left, a firing runs the chosen process, which is active and queued |
| RoundRobin.IdleTickOnlyStops | src/pages/Scheduling.tsx:72-75 | with every process completed, a firing changes nothing but stopping the run |
| RoundRobin.RunningTickRunsOne | src/pages/Scheduling.tsx:94-132 | with work left, a firing takes exactly one unit from one incomplete process and leaves the others alone; it adds 1 to the time, and the process completes exactly at remaining 0 |
| RoundRobin.QuantumBookkeeping | src/pages/Scheduling.tsx:80-125 | a selecting firing leaves quantum − 1; a continuing firing decrements the quantum; a completing firing sets it to 0 |
| RoundRobin.QueueRotation | src/pages/Scheduling.tsx:82-90 | an expired quantum sends the process the rotation updater read to the back of the queue: the expiring process when the updater runs at once, the newly chosen head when it is deferred; a process that completes in that firing leaves the queue instead |
| RoundRobin.TicksConsumeWork | src/pages/Scheduling.tsx:98-132 | m firings with work left, each with its own timing of the rotation updater, keep the invariant, take m units of work and advance the time by m |
| RoundRobin.RunsToCompletion | src/pages/Scheduling.tsx:72-75 | for every mix of timings, one per firing, every process completes after exactly as many firings as there are units of work; no earlier firing leaves all completed; the next firing only stops the run |
| RoundRobin.DefaultWork | src/pages/Scheduling.tsx:37-40 | the demo processes carry 21 units of work |
| RoundRobin.DefaultRunCompletes | src/pages/Scheduling.tsx:36-75 | for every quantum 1..5 and every mix of timings, one per firing, the demo completes after exactly 21 firings, at time 21, and the next firing stops it |
| RoundRobin.P1QueueActive | src/pages/Scheduling.tsx:67-70 | during P1's first quantum the whole queue stays active |
| RoundRobin.P1Run | src/pages/Scheduling.tsx:94-130 | one more unit of P1 within its quantum |
| RoundRobin.StartedUnderQuantum3 | src/pages/Scheduling.tsx:32-44 | the scenario starts from the initial page state under quantum 3, started |
| RoundRobin.P1Tick | src/pages/Scheduling.tsx:77-132 | under quantum 3, the first three firings run P1 |
| RoundRobin.RotateFirst | src/pages/Scheduling.tsx:85 | rotating P1 turns [1,2,3,4] into [2,3,4,1] |
| RoundRobin.FourthChoice | src/pages/Scheduling.tsx:77-92 | when P1's quantum expires the queue rotates P1 to the back under either timing (P1 is both the expiring process and the head), yet P1, the head of the pre-tick active queue, is chosen again |
| RoundRobin.FourthRun | src/pages/Scheduling.tsx:94-130 | that fourth unit extends P1's block to [0, 4) with quantum 2 left |
| RoundRobin.ExpiredProcessPickedAgain | src/pages/Scheduling.tsx:80-92 | under either timing, the fourth firing of the demo runs P1 again after its quantum expired: queue [2,3,4,1], one block [0, 4) |
| RoundRobin.ReadingsDiffer | src/pages/Scheduling.tsx:85-90 | with quantum 2, when P1's quantum expires a second time with queue [2,3,4,1], both timings pick P2; run at once the updater leaves the queue [2,3,4,1], deferred it gives [3,4,1,2] |
| SchedulingPage.SchedulingView.constructor | src/pages/Scheduling.tsx:32-44 | the page opens with quantum 3 in the initial state, which satisfies the invariant |
| SchedulingPage.SchedulingView.Reset | src/pages/Scheduling.tsx:46-59 | reset restores the four processes, queue [1,2,3,4], time 0, no current process and an empty timeline, with the quantum counter at the selected quantum |
| SchedulingPage.SchedulingView.SetQuantum | src/pages/Scheduling.tsx:168-175 | the slider (1..5, disabled while running) changes only the quantum |
| SchedulingPage.SchedulingView.ToggleRunning | src/pages/Scheduling.tsx:179-186 | Start/Pause flips the run and nothing else; it is disabled once all processes are completed |
| SchedulingPage.SchedulingView.ChooseNext | src/pages/Scheduling.tsx:77-92 | the selection code computes the choice `Choose` specifies for the given timing |
| SchedulingPage.SchedulingView.RunNext | src/pages/Scheduling.tsx:94-132 | the in-place run computes the state `RunChosen` specifies |
| SchedulingPage.SchedulingView.Tick | src/pages/Scheduling.tsx:61-138 | a firing while running is exactly `Step` of the previous state for the given timing and keeps the invariant; while paused nothing changes |
| Simulator.KernelThreads | src/pages/Simulator.tsx:57-65 | many-to-one gives 1; one-to-one gives n; many-to-many gives ⌈n/2⌉ capped at 4 |
| Simulator.MaxRunning | src/pages/Simulator.tsx:76 | many-to-one lets one thread run, the other models the kernel-thread count; `RunningBound` shows a firing respects it |
| Simulator.Admitted | src/pages/Simulator.tsx:81-88 | the admit pass on the whole list; `AdmitPass` computes it and `NewThreadsAdmitted` states its effect |
| Simulator.Ran | src/pages/Simulator.tsx:90-109 | the run pass on the whole list; `RunPass` computes it and `TickProgress` states its effect on progress |
| Simulator.Woken | src/pages/Simulator.tsx:111-117 | the wake pass on the whole list; `WakePass` computes it |
| Simulator.Dispatched | src/pages/Simulator.tsx:119-135 | the dispatch pass; `DispatchPass` computes it and `DispatchCounts`, `DispatchTotals` and `DispatchInListOrder` state which threads it starts |
| Simulator.Tick | src/pages/Simulator.tsx:72-138 | one firing; `TickKeepsThreads`, `TerminatedStays`, `NewThreadsAdmitted`, `TickProgress`, `RunningBound` and `NoIdleSlot` state what it does |
| Simulator.Changes | src/pages/Simulator.tsx:86-132 | one log line per thread whose state a pass changed, in list order; `NoChangesNoLog` and `ChangesFollowTable` state its properties |
| Simulator.TickLog | src/pages/Simulator.tsx:72-138 | the lines a firing logs; `TickLogFollowsLifecycle` shows each is a table transition |
| Simulator.AdmitPass | src/pages/Simulator.tsx:81-88 | the loop makes every new thread ready and logs one line per change |
| Simulator.RunPass | src/pages/Simulator.tsx:90-109 | the loop advances each running thread by the increment. At 100 the thread terminates with progress 100. Otherwise the first coin blocks it on I/O and the second preempts it. One line is logged per state change |
| Simulator.WakePass | src/pages/Simulator.tsx:111-117 | the loop wakes each waiting thread whose coin comes up and logs it |
| Simulator.DispatchPass | src/pages/Simulator.tsx:119-135 | the loop starts the first `maxRunning − running` ready threads in list order (none if that is ≤ 0) and logs them |
| Simulator.TickThreads | src/pages/Simulator.tsx:72-138 | the four passes compute `Tick` and log `TickLog` |
| Simulator.NoChangesNoLog | src/pages/Simulator.tsx:72-138 | a pass that changes no state logs nothing |
| Simulator.TickKeepsThreads | src/pages/Simulator.tsx:73-134 | a firing keeps the same threads in the same order with the same ids |
| Simulator.TerminatedStays | src/pages/Simulator.tsx:82-134 | a terminated thread is left exactly as it was |
| Simulator.NewThreadsAdmitted | src/pages/Simulator.tsx:82-134 | no thread is new after a firing; a new thread becomes ready or running with its progress unchanged |
| Simulator.TickProgress | src/pages/Simulator.tsx:94-107 | progress stays in 0..100 and is 100 exactly for terminated threads; only running threads gain, by the increment capped at 100 |
| Simulator.DispatchCounts | src/pages/Simulator.tsx:120-134 | over each prefix, dispatch moves min(slots, ready) threads from ready to running |
| Simulator.DispatchTotals | src/pages/Simulator.tsx:120-134 | over the whole list, dispatch moves min(slots, ready) threads from ready to running |
| Simulator.SettledRunsFewer | src/pages/Simulator.tsx:82-117 | the first three passes never start a thread |
| Simulator.RunningBound | src/pages/Simulator.tsx:76-134 | after a firing at most `maxRunning` threads run, unless more ran before, and then no more than before |
| Simulator.NoIdleSlot | src/pages/Simulator.tsx:120-134 | a thread left ready after a firing means every slot is taken |
| Simulator.DispatchInListOrder | src/pages/Simulator.tsx:124-126 | when a ready thread is started, every ready thread before it is started too |
| Simulator.ChangesFollowTable | src/pages/Simulator.tsx:86-132 | a pass that moves threads along table transitions logs only table transitions |
| Simulator.PassesMoveAlongTable | src/pages/Simulator.tsx:82-134 | each of the four passes moves each thread along at most one life-cycle transition |
| Simulator.TickLogFollowsLifecycle | src/pages/Simulator.tsx:86-132 | every line a firing logs is a transition the life-cycle table lists |
| SimulatorPage.WithoutThread | src/pages/Simulator.tsx:45 | no thread with the removed id remains, and the list does not grow |
| SimulatorPage.WithoutThreadMembers | src/pages/Simulator.tsx:45 | exactly the threads with another id stay; without such a thread the list is unchanged |
| SimulatorPage.WithoutThreadAbove | src/pages/Simulator.tsx:45 | removal keeps a lower bound on the ids |
| SimulatorPage.WithoutThreadIncreasing | src/pages/Simulator.tsx:45 | removal keeps the ids increasing along the list |
| SimulatorPage.WithoutThreadOk | src/pages/Simulator.tsx:44-47 | removal keeps the thread list well formed: positive increasing ids below `nextId` and valid progress |
| SimulatorPage.TickThreadsOk | src/pages/Simulator.tsx:72-138 | a firing keeps the thread list well formed |
| SimulatorPage.Increment | src/pages/Simulator.tsx:94 | `10 * speed` with the speed as a count of half steps; `SimulatorView.Tick` passes it to `Simulator.Tick` |
| SimulatorPage.SimulatorView.constructor | src/pages/Simulator.tsx:20-26 | the page opens empty, many-to-one, speed 1, not running, next id 1, one kernel thread |
| SimulatorPage.SimulatorView.AddThread | src/pages/Simulator.tsx:32-42 | appends a new thread with progress 0 and the next id, increments the next id and logs the creation; ids stay unique and increasing |
| SimulatorPage.SimulatorView.RemoveThread | src/pages/Simulator.tsx:44-47 | deletes exactly the threads with that id, keeps the others' order and logs the removal |
| SimulatorPage.SimulatorView.Reset | src/pages/Simulator.tsx:49-54 | stops, empties threads and log, and sets the next id to 1 |
| SimulatorPage.SimulatorView.SetModel | src/pages/Simulator.tsx:57-65 | changing the model recomputes the kernel-thread count for the current threads |
| SimulatorPage.SimulatorView.SetSpeed | src/pages/Simulator.tsx:184-190 | the speed slider (0.5 to 3 in steps of 0.5) changes only the speed |
| SimulatorPage.SimulatorView.ToggleRunning | src/pages/Simulator.tsx:201-204 | Start/Pause, disabled with no threads, flips the run only |
| SimulatorPage.SimulatorView.Tick | src/pages/Simulator.tsx:68-142 | a firing while running with threads applies `Simulator.Tick` with the increment 10 × speed. It appends the firing's lines to the log of 20, keeps the page valid, and leaves no more threads running than the kernel threads allow or than ran before. Otherwise nothing changes |
| Semaphore.FindCritical | src/pages/Synchronization.tsx:50 | the first critical process, or none exactly when no process is critical |
| Semaphore.FirstWaiting | src/pages/Synchronization.tsx:49 | the first waiting process, or none exactly when no process waits |
| Semaphore.ExitOrAdvance | src/pages/Synchronization.tsx:52-61 | advancing the critical process keeps the number of processes; `FinishKeepsInv`, `StrideKeepsInv` and `ExitKeepsInv` state its effect |
| Semaphore.Admit | src/pages/Synchronization.tsx:62-67 | the first waiting process takes the permit; it keeps the number of processes, and `AdmitKeepsInv` states the rest |
| Semaphore.Progressed | src/pages/Synchronization.tsx:47-68 | the update half of a firing keeps the number of processes; `ProgressedKeepsInv` and `CriticalAdvances` state the rest |
| Semaphore.Step | src/pages/Synchronization.tsx:46-78 | one firing keeps the number of processes; `StepKeepsInv`, `DoneStays`, `EntersInOrder` and `StopsWhenAllDone` state the rest |
| Semaphore.InitialInv | src/pages/Synchronization.tsx:15-24 | the initial state holds the semaphore invariant, and its counter counts the done processes (none) |
| Semaphore.OneCritical | src/pages/Synchronization.tsx:50-68 | two critical processes are the same process |
| Semaphore.MutualExclusion | src/pages/Synchronization.tsx:16-68 | at most one process is critical; the semaphore is 0 or 1, and 1 exactly when none is critical |
| Semaphore.CriticalAdvances | src/pages/Synchronization.tsx:52-62 | with a critical process, a firing advances it and admits nobody |
| Semaphore.StrideKeepsInv | src/pages/Synchronization.tsx:54 | a stride that stays below 100 keeps the invariant and the counter |
| Semaphore.FinishKeepsInv | src/pages/Synchronization.tsx:55-60 | reaching 100 makes that process done at 100 and changes no other, returns the permit, adds one to the shared counter, logs the exit, and keeps the invariant |
| Semaphore.ExitKeepsInv | src/pages/Synchronization.tsx:52-61 | advancing the critical process keeps the invariant and the count of exits |
| Semaphore.AdmitKeepsInv | src/pages/Synchronization.tsx:62-67 | admitting the first waiting process while the semaphore is free keeps the invariant |
| Semaphore.ProgressedKeepsInv | src/pages/Synchronization.tsx:47-68 | the update half of a firing keeps the invariant and the counter |
| Semaphore.StepKeepsInv | src/pages/Synchronization.tsx:46-78 | every firing keeps semaphore + critical = 1, progress in strides of 20, and done-critical-waiting order; the shared counter keeps counting the done processes |
| Semaphore.DoneStays | src/pages/Synchronization.tsx:52-68 | a done process never changes again |
| Semaphore.EntersInOrder | src/pages/Synchronization.tsx:62-65 | a process enters only when none is critical and all before it are done, so processes enter in id order |
| Semaphore.StopsWhenAllDone | src/pages/Synchronization.tsx:71-74 | the run stops exactly when every process is done, even after a race demo has overwritten the counter; the permit is then back, and while the counter still counts the done processes it reads the number of processes |
| Semaphore.RaceInterleaving | src/pages/Synchronization.tsx:87-100 | both reads see 0 before either write, so the counter ends at 1 while 3 is expected |
| SemaphoreRun.EnterStep | src/pages/Synchronization.tsx:62-67 | with the section free, the next waiting process enters at progress 0 |
| SemaphoreRun.AdvanceStep | src/pages/Synchronization.tsx:52-54 | inside the section a process advances by 20 |
| SemaphoreRun.LeaveStep | src/pages/Synchronization.tsx:55-74 | at 80 the process leaves the section; the run stops after the last one |
| SemaphoreRun.AdvanceMany | src/pages/Synchronization.tsx:52-54 | m strides in a row inside the section |
| SemaphoreRun.ServeOne | src/pages/Synchronization.tsx:46-78 | a waiting process is done six firings after the section becomes free |
| SemaphoreRun.ServeRest | src/pages/Synchronization.tsx:46-78 | from k processes done, the rest finish in six firings each and the run stops |
| SemaphoreRun.AllServed | src/pages/Synchronization.tsx:55-60 | with all processes done, the counter equals the number of processes and the semaphore is 1 |
| SemaphoreRun.InitialBefore | src/pages/Synchronization.tsx:17-21 | the started initial state has three waiting processes and a free section |
| SemaphoreRun.DefaultRun | src/pages/Synchronization.tsx:43-81 | from reset, 18 firings finish all three processes: the counter reads 3, the semaphore is 1 and the run has stopped |
| SemaphorePage.SyncView.constructor | src/pages/Synchronization.tsx:15-24 | the page opens in the initial state, which satisfies the invariant |
| SemaphorePage.SyncView.Reset | src/pages/Synchronization.tsx:30-41 | reset restores three waiting processes, semaphore 1, counter 0, an empty log and no race flag |
| SemaphorePage.SyncView.ToggleRunning | src/pages/Synchronization.tsx:144 | Start/Pause flips the run only |
| SemaphorePage.SyncView.Advance | src/pages/Synchronization.tsx:47-68 | the in-place update of the tick computes `Progressed` |
| SemaphorePage.SyncView.Tick | src/pages/Synchronization.tsx:43-81 | a firing while running is exactly `Step` of the previous state and keeps the invariant and the counter; while paused nothing changes |
| SemaphorePage.SyncView.StartRace | src/pages/Synchronization.tsx:85-86 | the race button raises the race flag and clears the counter |
| SemaphorePage.SyncView.FinishRace | src/pages/Synchronization.tsx:87-100 | the last timeout shows counter 1 and logs "expected 3, got 1" |

## Left out

- Rendering is not part of this model: JSX, styles, SVG diagrams, the legend and the tabs. `ThreadingModels.tsx`, `About.tsx`, `App.tsx` and `StateLegend.tsx` are not part of this model. Of `ThreadNode.tsx`, only the `ThreadState` type at line 3 is modelled.
- Timing is not modelled. This covers `setInterval` and `setTimeout` delays, effect re-subscription, and the `500 / speed` period. Each firing is one atomic step on the state the page last rendered.
- `Math.random()` draws are boolean inputs. The model makes no claim about probabilities.
- Log lines carry no `toLocaleTimeString()` prefix. They are datatype messages, not formatted strings.
- Displayed statistics are not modelled. This covers percentages, bar widths, the completed count and the total burst.
- The monitor tab's code (`Synchronization.tsx:234-249`) is not modelled. It is a display string.
- Colours and names are not modelled as text. A process colour is its index in `Colors`, and the name "P<id>" is dropped.
- Simulator speed is a count of half steps from 1 to 6. This represents 0.5 to 3 exactly, and the increment `10 * speed` becomes `5 * halves`.
- Shared objects are updated by value, not in place. This applies where the source mutates an object it shares with the previous state: `Scheduling.tsx:98,121` and `Synchronization.tsx:54-57,65`. A render that re-ran an updater (React StrictMode) would see that mutation twice; the model runs each updater once.
- RoundRobin.Choose: the rotation updater at `Scheduling.tsx:85` reads the `let nextProcessId` that line 90 reassigns, so what it rotates depends on when React runs it. React runs it at once only when the page has no update pending; otherwise it runs at the next render, after line 90, and rotates the newly chosen head. The model takes this as a `Timing` input on each firing. It proves the invariant for both, and termination for any mix of the two over a run. It makes no claim about which one React takes on a given firing.
- SimulatorPage.SimulatorView: the source sets the kernel-thread count in an effect after the render that changed the model or the thread count. Each handler recomputes it at once, so no firing sees a stale count.
- Simulator.Tick: the source finds each thread by id (`findIndex`); the model works by position. The two agree when ids are distinct, and the page keeps them distinct (`SimulatorPage.ThreadsOk`).
- SimulatorPage.SimulatorView.AddThread: several clicks before one re-render would read the same `nextId` from that render. The model takes each click after the previous one has rendered.
- SemaphorePage.SyncView: the race demo's first three timeouts only read and write a local counter, so they are folded into `RaceInterleaving`. A pending demo is not cancelled by Reset, so "counter = number of done processes" is kept by Tick and Reset but is not part of `Valid`.
