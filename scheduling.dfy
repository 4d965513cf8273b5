/** The Round-Robin CPU scheduling page (Scheduling.tsx): a ready queue of
    process ids, a quantum countdown, per-process remaining burst time and a
    Gantt timeline whose consecutive ticks of one process are merged into one
    block. This module holds the value-level model: the list updaters the
    page passes to React, and `Step`, one firing of the 500 ms interval read
    as one atomic step on a snapshot of the page's state. */
module RoundRobin {
  import opened Optional

  /** A process of the table. `color` is the position of its colour in `Colors`;
      the display name "P<id>" is left out. */
  datatype Process = Process(id: int, burstTime: int, remainingTime: int, color: nat, completed: bool)

  /** One bar of the Gantt chart: `processId` ran during [startTime, endTime). */
  datatype TimelineBlock = TimelineBlock(processId: int, startTime: int, endTime: int, color: nat)

  /** Everything the interval reads and writes. */
  datatype Sched = Sched(
    processes: seq<Process>,
    queue: seq<int>,
    quantumRemaining: int,
    currentProcess: Option<int>,
    currentTime: int,
    timeline: seq<TimelineBlock>,
    isRunning: bool)

  const Colors: seq<string> := [
    "hsl(var(--primary))", "hsl(var(--accent))", "hsl(var(--thread-running))",
    "hsl(var(--thread-waiting))", "hsl(var(--destructive))"]

  /** The four demo processes P1..P4 with bursts 6, 4, 8 and 3. */
  const InitialProcesses: seq<Process> := [
    Process(1, 6, 6, 0, false),
    Process(2, 4, 4, 1, false),
    Process(3, 8, 8, 2, false),
    Process(4, 3, 3, 3, false)]

  const InitialQueue: seq<int> := [1, 2, 3, 4]

  /** The page's state on load and after Reset, for the quantum then selected. */
  function Initial(quantum: int): Sched
  {
    Sched(InitialProcesses, InitialQueue, quantum, None, 0, [], false)
  }

  // ---------------------------------------------------------------------------
  // Lookups and list updaters

  /** `processes.findIndex(p => p.id === id)`, with -1 for "not found". */
  function FindIndex(ps: seq<Process>, id: int): (k: int)
    ensures -1 <= k < |ps|
    ensures k >= 0 ==> ps[k].id == id && forall j :: 0 <= j < k ==> ps[j].id != id
    ensures k == -1 <==> forall j :: 0 <= j < |ps| ==> ps[j].id != id
  {
    if ps == [] then -1
    else if ps[0].id == id then 0
    else
      var k := FindIndex(ps[1..], id);
      if k == -1 then -1 else k + 1
  }

  /** `p && !p.completed` for `p = processes.find(proc => proc.id === id)`. */
  predicate IsActive(ps: seq<Process>, id: int)
  {
    var k := FindIndex(ps, id);
    k >= 0 && !ps[k].completed
  }

  /** `queue.filter(id => ...)`: the queued ids whose process exists and is not completed. */
  function ActiveQueue(q: seq<int>, ps: seq<Process>): (r: seq<int>)
    ensures forall x :: x in r <==> x in q && IsActive(ps, x)
    ensures |r| <= |q|
  {
    if q == [] then []
    else (if IsActive(ps, q[0]) then [q[0]] else []) + ActiveQueue(q[1..], ps)
  }

  /** `q.filter(x => x !== id)`. */
  function Without(q: seq<int>, id: int): (r: seq<int>)
    ensures |r| <= |q|
  {
    if q == [] then []
    else if q[0] == id then Without(q[1..], id)
    else [q[0]] + Without(q[1..], id)
  }

  /** The filter keeps exactly the other ids, in order and without repeats;
      with no `id` in the queue nothing changes, and from a queue without
      repeats holding `id` it removes one entry. */
  lemma {:induction false} WithoutFacts(q: seq<int>, id: int)
    ensures forall x :: x in Without(q, id) <==> x in q && x != id
    ensures NoDuplicates(q) ==> NoDuplicates(Without(q, id))
    ensures id !in q ==> Without(q, id) == q
    ensures NoDuplicates(q) && id in q ==> |Without(q, id)| == |q| - 1
    decreases |q|
  {
    if q != [] {
      var tail := q[1..];
      WithoutFacts(tail, id);
      NoDuplicatesTail(q);
      assert q == [q[0]] + tail;
      if q[0] != id {
        NoDuplicatesTail([q[0]] + Without(tail, id));
        assert ([q[0]] + Without(tail, id))[1..] == Without(tail, id);
      }
    }
  }

  /** `[...q.filter(x => x !== id), id]`: the expiring process goes to the back. */
  function Rotate(q: seq<int>, id: int): (r: seq<int>)
    ensures |r| > 0 && r[|r| - 1] == id
  {
    Without(q, id) + [id]
  }

  /** Rotation keeps the queued ids, adds `id`, and repeats none. */
  lemma RotateFacts(q: seq<int>, id: int)
    ensures forall x :: x in Rotate(q, id) <==> x in q || x == id
    ensures NoDuplicates(q) ==> NoDuplicates(Rotate(q, id))
  {
    WithoutFacts(q, id);
    var w := Without(q, id);
    var r := w + [id];
    assert forall x :: x in r <==> x in w || x == id;
    if NoDuplicates(q) {
      forall i, j | 0 <= i < j < |r|
        ensures r[i] != r[j]
      {
        if j < |w| {
          assert r[i] == w[i] && r[j] == w[j];
        } else {
          assert r[i] == w[i] && r[i] in w;
        }
      }
    }
  }

  predicate NoDuplicates(q: seq<int>)
  {
    forall i, j :: 0 <= i < j < |q| ==> q[i] != q[j]
  }

  lemma NoDuplicatesTail(q: seq<int>)
    requires q != []
    ensures NoDuplicates(q) ==> NoDuplicates(q[1..]) && q[0] !in q[1..]
    ensures NoDuplicates(q[1..]) && q[0] !in q[1..] ==> NoDuplicates(q)
  {
  }

  /** The timeline updater: extend the last block when the same process runs
      again, otherwise open a new one-tick block. */
  function MergeTimeline(tl: seq<TimelineBlock>, pid: int, time: int, color: nat): seq<TimelineBlock>
  {
    if tl != [] && tl[|tl| - 1].processId == pid then
      tl[..|tl| - 1] + [tl[|tl| - 1].(endTime := time + 1)]
    else
      tl + [TimelineBlock(pid, time, time + 1, color)]
  }

  // ---------------------------------------------------------------------------
  // One tick

  /** What the selection part of a tick decides: the process to run, the queue
      after the rotation updater, and the quantum counter after `setQuantumRemaining(quantum)`. */
  datatype Choice = Choice(next: int, queue: seq<int>, quantumRemaining: int)

  /** When the rotation updater of line 85 runs. It reads the page's
      `let nextProcessId`, which line 90 then reassigns to the head of the
      active queue. React runs an updater at once, while that variable still
      holds the process whose quantum expired, only when the page has no
      update pending; otherwise it runs the updater at the next render, after
      line 90, and the updater then rotates the newly chosen head. */
  datatype Timing = Eager | Deferred

  /** Lines 77-92: keep the current process while its quantum lasts; otherwise
      take the head of the PRE-tick active queue and, if the current process
      is still incomplete, move the updater's process to the back: the
      expiring process (`Eager`) or the chosen head (`Deferred`). */
  function Choose(s: Sched, active: seq<int>, quantum: int, timing: Timing): Choice
    requires active != []
  {
    var hasCurrent := s.currentProcess.Some? && s.currentProcess.value != 0;
    if !hasCurrent || s.quantumRemaining <= 0 then
      var q := if hasCurrent && IsActive(s.processes, s.currentProcess.value)
               then Rotate(s.queue, if timing == Eager then s.currentProcess.value else active[0])
               else s.queue;
      Choice(active[0], q, quantum)
    else
      Choice(s.currentProcess.value, s.queue, s.quantumRemaining)
  }

  /** Lines 94-132: run the chosen process for one time unit. */
  function RunChosen(s: Sched, c: Choice): Sched
  {
    var k := if c.next != 0 then FindIndex(s.processes, c.next) else -1;
    if k < 0 then
      s.(queue := c.queue, quantumRemaining := c.quantumRemaining, currentTime := s.currentTime + 1)
    else
      var p := s.processes[k].(remainingTime := s.processes[k].remainingTime - 1);
      var timeline := MergeTimeline(s.timeline, c.next, s.currentTime, p.color);
      if p.remainingTime <= 0 then
        s.(processes := s.processes[k := p.(completed := true)],
           queue := Without(c.queue, c.next),
           quantumRemaining := 0,
           currentProcess := Some(c.next),
           timeline := timeline,
           currentTime := s.currentTime + 1)
      else
        s.(processes := s.processes[k := p],
           queue := c.queue,
           quantumRemaining := c.quantumRemaining - 1,
           currentProcess := Some(c.next),
           timeline := timeline,
           currentTime := s.currentTime + 1)
  }

  /** One firing of the interval. With nothing left to run it only stops the run. */
  function Step(s: Sched, quantum: int, timing: Timing): Sched
  {
    var active := ActiveQueue(s.queue, s.processes);
    if active == [] then s.(isRunning := false)
    else RunChosen(s, Choose(s, active, quantum, timing))
  }

  /** Consecutive firings, one per element of `timings`; React decides anew on
      each firing when the rotation updater runs, so each firing has its own. */
  function Steps(s: Sched, quantum: int, timings: seq<Timing>): Sched
    decreases |timings|
  {
    if timings == [] then s else Steps(Step(s, quantum, timings[0]), quantum, timings[1..])
  }

  // ---------------------------------------------------------------------------
  // The invariant

  function Used(p: Process): int { p.burstTime - p.remainingTime }
  function Left(p: Process): int { p.remainingTime }

  function Total(ps: seq<Process>, f: Process -> int): int
  {
    if ps == [] then 0 else f(ps[0]) + Total(ps[1..], f)
  }

  predicate UniqueIds(ps: seq<Process>)
  {
    forall i, j :: 0 <= i < j < |ps| ==> ps[i].id != ps[j].id
  }

  predicate ProcessOk(p: Process)
  {
    p.id > 0 && 0 <= p.remainingTime <= p.burstTime && (p.completed <==> p.remainingTime == 0)
  }

  predicate AllCompleted(ps: seq<Process>)
  {
    forall i :: 0 <= i < |ps| ==> ps[i].completed
  }

  /** The queue holds each incomplete process id exactly once and nothing else. */
  predicate QueueOk(q: seq<int>, ps: seq<Process>)
  {
    && NoDuplicates(q)
    && (forall x :: x in q ==> IsActive(ps, x))
    && (forall i :: 0 <= i < |ps| && !ps[i].completed ==> ps[i].id in q)
  }

  /** The Gantt chart: blocks tile [0, t) without gaps, none is empty, and two
      neighbouring blocks never belong to the same process. */
  predicate TimelineOk(tl: seq<TimelineBlock>, t: int)
  {
    && t >= 0
    && (tl == [] <==> t == 0)
    && (tl != [] ==> tl[0].startTime == 0 && tl[|tl| - 1].endTime == t)
    && (forall i :: 0 <= i < |tl| ==> tl[i].startTime < tl[i].endTime)
    && (forall i :: 0 <= i < |tl| - 1 ==> tl[i].endTime == tl[i + 1].startTime)
    && (forall i :: 0 <= i < |tl| - 1 ==> tl[i].processId != tl[i + 1].processId)
  }

  predicate Inv(s: Sched)
  {
    && UniqueIds(s.processes)
    && (forall i :: 0 <= i < |s.processes| ==> ProcessOk(s.processes[i]))
    && QueueOk(s.queue, s.processes)
    && s.quantumRemaining >= 0
    && (s.currentProcess.Some? ==> FindIndex(s.processes, s.currentProcess.value) >= 0)
    && (s.currentProcess.Some? && s.quantumRemaining > 0 ==> IsActive(s.processes, s.currentProcess.value))
    && s.currentTime == Total(s.processes, Used)
    && TimelineOk(s.timeline, s.currentTime)
  }

  // ---------------------------------------------------------------------------
  // Lemmas

  lemma InitialInv(quantum: int)
    requires quantum >= 1
    ensures Inv(Initial(quantum))
  {
    InitialTable();
    InitialQueueOk();
  }

  /** The demo processes: distinct ids, consistent burst times, no work done. */
  lemma InitialTable()
    ensures UniqueIds(InitialProcesses)
    ensures forall i :: 0 <= i < |InitialProcesses| ==> ProcessOk(InitialProcesses[i])
    ensures Total(InitialProcesses, Used) == 0
  {
    var ps := InitialProcesses;
    assert forall i :: 0 <= i < |ps| ==> ps[i].id == i + 1 && Used(ps[i]) == 0;
    assert Total(ps[3..], Used) == 0;
    assert Total(ps[2..], Used) == 0;
    assert Total(ps[1..], Used) == 0;
  }

  /** The demo queue lists every demo process once. */
  lemma InitialQueueOk()
    ensures QueueOk(InitialQueue, InitialProcesses)
  {
    var ps := InitialProcesses;
    var q := InitialQueue;
    assert forall i :: 0 <= i < |ps| ==> ps[i].id == i + 1 && !ps[i].completed;
    assert forall i :: 0 <= i < |q| ==> q[i] == i + 1;
    forall x | x in q
      ensures IsActive(ps, x)
    {
      FindUnique(ps, x - 1);
    }
    forall i | 0 <= i < |ps|
      ensures ps[i].id in q
    {
      assert q[i] == ps[i].id;
    }
  }

  /** Totals change only at the updated index. */
  lemma {:induction false} TotalUpdate(ps: seq<Process>, k: int, p: Process, f: Process -> int)
    requires 0 <= k < |ps|
    ensures Total(ps[k := p], f) == Total(ps, f) - f(ps[k]) + f(p)
    decreases |ps|
  {
    if k > 0 {
      TotalUpdate(ps[1..], k - 1, p, f);
      assert ps[k := p][1..] == ps[1..][k - 1 := p];
    }
  }

  /** No work is left exactly when every process has completed. */
  lemma {:induction false} NoWorkLeft(ps: seq<Process>)
    requires forall i :: 0 <= i < |ps| ==> ProcessOk(ps[i])
    ensures Total(ps, Left) >= 0
    ensures Total(ps, Left) == 0 <==> AllCompleted(ps)
    decreases |ps|
  {
    if ps != [] {
      NoWorkLeft(ps[1..]);
      assert forall i :: 1 <= i < |ps| ==> ps[i] == ps[1..][i - 1];
    }
  }

  lemma FindUnique(ps: seq<Process>, k: int)
    requires UniqueIds(ps) && 0 <= k < |ps|
    ensures FindIndex(ps, ps[k].id) == k
  {
  }

  /** Under the invariant the filter at lines 67-70 keeps the whole queue. */
  lemma {:induction false} ActiveIsWholeQueue(q: seq<int>, ps: seq<Process>)
    requires forall x :: x in q ==> IsActive(ps, x)
    ensures ActiveQueue(q, ps) == q
    decreases |q|
  {
    if q != [] {
      ActiveIsWholeQueue(q[1..], ps);
    }
  }

  /** Something is queued exactly when some process is still incomplete. */
  lemma QueueEmptyIffDone(s: Sched)
    requires Inv(s)
    ensures s.queue == [] <==> AllCompleted(s.processes)
  {
    if s.queue != [] {
      var x := s.queue[0];
      assert IsActive(s.processes, x);
      var k := FindIndex(s.processes, x);
      assert !s.processes[k].completed;
    }
  }

  /** Merging one tick into a well-formed timeline keeps it well-formed and
      makes the running process the owner of the last block. */
  lemma MergeKeepsTimeline(tl: seq<TimelineBlock>, pid: int, t: int, color: nat)
    requires TimelineOk(tl, t)
    ensures var r := MergeTimeline(tl, pid, t, color);
      TimelineOk(r, t + 1) && r[|r| - 1].processId == pid
      && |r| == (if tl != [] && tl[|tl| - 1].processId == pid then |tl| else |tl| + 1)
  {
  }

  /** Replacing a process by one with the same id keeps every lookup by id. */
  lemma FindAfterUpdate(ps: seq<Process>, k: int, p: Process, x: int)
    requires UniqueIds(ps) && 0 <= k < |ps| && p.id == ps[k].id
    ensures UniqueIds(ps[k := p])
    ensures FindIndex(ps[k := p], x) == FindIndex(ps, x)
  {
    var j := FindIndex(ps, x);
    if j >= 0 {
      FindUnique(ps[k := p], j);
    }
  }

  /** The facts about the process a running tick picks. */
  lemma ChoiceFacts(s: Sched, quantum: int, timing: Timing)
    requires Inv(s) && quantum >= 1 && s.queue != []
    ensures ActiveQueue(s.queue, s.processes) == s.queue
    ensures var c := Choose(s, s.queue, quantum, timing);
      && c.next != 0 && IsActive(s.processes, c.next) && c.next in c.queue
      && QueueOk(c.queue, s.processes)
      && c.quantumRemaining >= 1
  {
    ActiveIsWholeQueue(s.queue, s.processes);
    var c := Choose(s, s.queue, quantum, timing);
    var hasCurrent := s.currentProcess.Some? && s.currentProcess.value != 0;
    if !hasCurrent || s.quantumRemaining <= 0 {
      var k := FindIndex(s.processes, s.queue[0]);
      assert ProcessOk(s.processes[k]);
      if hasCurrent && IsActive(s.processes, s.currentProcess.value) {
        if timing == Eager {
          RotateFacts(s.queue, s.currentProcess.value);
          var j := FindIndex(s.processes, s.currentProcess.value);
          assert !s.processes[j].completed;
          assert s.currentProcess.value in s.queue;
        } else {
          RotateFacts(s.queue, s.queue[0]);
        }
      }
    } else {
      var j := FindIndex(s.processes, s.currentProcess.value);
      assert !s.processes[j].completed;
    }
  }

  /** Running process `k` (and completing it when `done`) keeps the queue
      equal to the incomplete ids: completion removes exactly that id. */
  lemma QueueAfterRun(ps: seq<Process>, q: seq<int>, k: int, p': Process, done: bool)
    requires UniqueIds(ps) && QueueOk(q, ps) && 0 <= k < |ps| && !ps[k].completed
    requires p'.id == ps[k].id && p'.completed == done
    ensures UniqueIds(ps[k := p'])
    ensures QueueOk(if done then Without(q, ps[k].id) else q, ps[k := p'])
  {
    var ps' := ps[k := p'];
    var next := ps[k].id;
    var q' := if done then Without(q, next) else q;
    WithoutFacts(q, next);
    FindAfterUpdate(ps, k, p', next);
    forall x | x in q'
      ensures IsActive(ps', x)
    {
      FindAfterUpdate(ps, k, p', x);
      var j := FindIndex(ps, x);
      assert IsActive(ps, x);
      if done {
        assert j != k;
      }
    }
    forall i | 0 <= i < |ps'| && !ps'[i].completed
      ensures ps'[i].id in q'
    {
      if i != k {
        assert ps[i].id in q;
      }
    }
  }

  /** Running incomplete process `k` for one unit keeps the process table and
      queue well formed. */
  lemma RunKeepsTable(ps: seq<Process>, q: seq<int>, k: int)
    requires UniqueIds(ps) && QueueOk(q, ps) && 0 <= k < |ps| && !ps[k].completed
    requires forall i :: 0 <= i < |ps| ==> ProcessOk(ps[i])
    ensures var done := ps[k].remainingTime <= 1;
      var ps' := ps[k := ps[k].(remainingTime := ps[k].remainingTime - 1, completed := done || ps[k].completed)];
      && UniqueIds(ps')
      && QueueOk(if done then Without(q, ps[k].id) else q, ps')
      && (forall i :: 0 <= i < |ps'| ==> ProcessOk(ps'[i]))
      && FindIndex(ps', ps[k].id) == k
  {
    var done := ps[k].remainingTime <= 1;
    var p' := ps[k].(remainingTime := ps[k].remainingTime - 1, completed := done || ps[k].completed);
    assert ProcessOk(ps[k]);
    assert p'.completed == done;
    QueueAfterRun(ps, q, k, p', done);
    FindAfterUpdate(ps, k, p', ps[k].id);
    FindUnique(ps, k);
  }

  /** Running a chosen active process for one tick keeps the invariant. */
  lemma RunKeepsInv(s: Sched, c: Choice)
    requires Inv(s)
    requires c.next != 0 && IsActive(s.processes, c.next) && QueueOk(c.queue, s.processes)
    requires c.quantumRemaining >= 1
    ensures Inv(RunChosen(s, c))
  {
    RunKeepsProcesses(s, c);
    RunKeepsClock(s, c);
  }

  lemma RunKeepsProcesses(s: Sched, c: Choice)
    requires Inv(s)
    requires c.next != 0 && IsActive(s.processes, c.next) && QueueOk(c.queue, s.processes)
    requires c.quantumRemaining >= 1
    ensures var r := RunChosen(s, c);
      && UniqueIds(r.processes)
      && (forall i :: 0 <= i < |r.processes| ==> ProcessOk(r.processes[i]))
      && QueueOk(r.queue, r.processes)
      && r.quantumRemaining >= 0
      && r.currentProcess == Some(c.next) && FindIndex(r.processes, c.next) >= 0
      && (r.quantumRemaining > 0 ==> IsActive(r.processes, c.next))
  {
    var k := FindIndex(s.processes, c.next);
    RunShape(s, c, k);
    RunKeepsTable(s.processes, c.queue, k);
  }

  lemma RunKeepsClock(s: Sched, c: Choice)
    requires Inv(s)
    requires c.next != 0 && IsActive(s.processes, c.next)
    ensures var r := RunChosen(s, c);
      && r.currentTime == Total(r.processes, Used)
      && TimelineOk(r.timeline, r.currentTime)
  {
    var k := FindIndex(s.processes, c.next);
    RunShape(s, c, k);
    RunAddsUsed(s.processes, k);
    MergeKeepsTimeline(s.timeline, c.next, s.currentTime, s.processes[k].color);
  }

  /** One unit of work done on process `k`. */
  lemma RunAddsUsed(ps: seq<Process>, k: int)
    requires 0 <= k < |ps|
    ensures Total(ps[k := ps[k].(remainingTime := ps[k].remainingTime - 1,
                                 completed := ps[k].remainingTime <= 1 || ps[k].completed)], Used)
         == Total(ps, Used) + 1
  {
    var p' := ps[k].(remainingTime := ps[k].remainingTime - 1,
                     completed := ps[k].remainingTime <= 1 || ps[k].completed);
    TotalUpdate(ps, k, p', Used);
  }

  /** Every tick keeps the invariant. */
  lemma StepKeepsInv(s: Sched, quantum: int, timing: Timing)
    requires Inv(s) && quantum >= 1
    ensures Inv(Step(s, quantum, timing))
  {
    ActiveIsWholeQueue(s.queue, s.processes);
    if s.queue != [] {
      ChoiceFacts(s, quantum, timing);
      RunKeepsInv(s, Choose(s, s.queue, quantum, timing));
    }
  }

  /** The shape of a tick that runs process number `k`. */
  lemma RunShape(s: Sched, c: Choice, k: int)
    requires c.next != 0 && k == FindIndex(s.processes, c.next) && k >= 0
    ensures RunChosen(s, c).processes == s.processes[k := s.processes[k].(
      remainingTime := s.processes[k].remainingTime - 1,
      completed := s.processes[k].remainingTime <= 1 || s.processes[k].completed)]
    ensures RunChosen(s, c).queue == (if s.processes[k].remainingTime <= 1 then Without(c.queue, c.next) else c.queue)
    ensures RunChosen(s, c).quantumRemaining == (if s.processes[k].remainingTime <= 1 then 0 else c.quantumRemaining - 1)
    ensures RunChosen(s, c).currentProcess == Some(c.next)
    ensures RunChosen(s, c).currentTime == s.currentTime + 1
    ensures RunChosen(s, c).timeline == MergeTimeline(s.timeline, c.next, s.currentTime, s.processes[k].color)
    ensures RunChosen(s, c).isRunning == s.isRunning
  {
  }

  /** A tick with work left runs the chosen process. */
  lemma StepShape(s: Sched, quantum: int, timing: Timing)
    requires Inv(s) && quantum >= 1 && !AllCompleted(s.processes)
    ensures s.queue != []
    ensures var c := Choose(s, s.queue, quantum, timing);
      && Step(s, quantum, timing) == RunChosen(s, c)
      && c.next != 0 && IsActive(s.processes, c.next) && c.next in c.queue
      && QueueOk(c.queue, s.processes)
      && c.quantumRemaining >= 1
  {
    QueueEmptyIffDone(s);
    ChoiceFacts(s, quantum, timing);
  }

  /** With every process completed a tick changes nothing but stopping the run. */
  lemma IdleTickOnlyStops(s: Sched, quantum: int, timing: Timing)
    requires Inv(s) && AllCompleted(s.processes)
    ensures Step(s, quantum, timing) == s.(isRunning := false)
  {
    QueueEmptyIffDone(s);
  }

  /** While some process is incomplete, a tick runs exactly one incomplete
      process for one time unit: its remaining time drops by one, every other
      process is untouched, the clock advances by one, the run goes on, and the
      process is marked completed exactly when its remaining time reaches 0. */
  lemma RunningTickRunsOne(s: Sched, quantum: int, timing: Timing)
    requires Inv(s) && quantum >= 1 && !AllCompleted(s.processes)
    ensures var s' := Step(s, quantum, timing);
      && s'.currentProcess.Some?
      && var k := FindIndex(s.processes, s'.currentProcess.value);
      && 0 <= k < |s.processes| && !s.processes[k].completed
      && |s'.processes| == |s.processes|
      && s'.processes[k].remainingTime == s.processes[k].remainingTime - 1
      && (s'.processes[k].completed <==> s'.processes[k].remainingTime == 0)
      && (forall j :: 0 <= j < |s.processes| && j != k ==> s'.processes[j] == s.processes[j])
      && s'.currentTime == s.currentTime + 1
      && Total(s'.processes, Left) == Total(s.processes, Left) - 1
      && s'.isRunning == s.isRunning
  {
    StepShape(s, quantum, timing);
    var c := Choose(s, s.queue, quantum, timing);
    RunShape(s, c, FindIndex(s.processes, c.next));
    var k := FindIndex(s.processes, c.next);
    assert ProcessOk(s.processes[k]);
    TotalUpdate(s.processes, k, RunChosen(s, c).processes[k], Left);
  }

  /** Which process a running tick picks, and the quantum counter it leaves.
      When there is no current process or its quantum is used up, the head of
      the pre-tick queue is picked, even when that head is the process whose
      quantum just expired, and the counter restarts at `quantum - 1`; otherwise
      the current process continues and the counter drops by one. Completing
      the process sets the counter to 0 instead. */
  lemma QuantumBookkeeping(s: Sched, quantum: int, timing: Timing)
    requires Inv(s) && quantum >= 1 && !AllCompleted(s.processes)
    ensures var s' := Step(s, quantum, timing);
      && s'.currentProcess.Some?
      && var next := s'.currentProcess.value;
      && var k := FindIndex(s.processes, next);
      && 0 <= k < |s.processes|
      && var completes := s.processes[k].remainingTime == 1;
      && (s.currentProcess.None? || s.quantumRemaining <= 0 ==>
            s.queue != [] && next == s.queue[0] && s'.quantumRemaining == (if completes then 0 else quantum - 1))
      && (s.currentProcess.Some? && s.quantumRemaining > 0 ==>
            next == s.currentProcess.value && s'.quantumRemaining == (if completes then 0 else s.quantumRemaining - 1))
  {
    StepShape(s, quantum, timing);
    var c := Choose(s, s.queue, quantum, timing);
    ChooseShape(s, quantum, timing);
    var k := FindIndex(s.processes, c.next);
    RunShape(s, c, k);
    assert ProcessOk(s.processes[k]);
    var s' := Step(s, quantum, timing);
    assert s'.currentProcess == Some(c.next);
    assert s'.quantumRemaining == (if s.processes[k].remainingTime == 1 then 0 else c.quantumRemaining - 1);
    if s.currentProcess.None? || s.quantumRemaining <= 0 {
      assert c.next == s.queue[0] && c.quantumRemaining == quantum;
    } else {
      assert c.next == s.currentProcess.value && c.quantumRemaining == s.quantumRemaining;
    }
  }

  /** The choice on a queue with work: the head with a fresh quantum, or the
      current process with what is left of its quantum. */
  lemma ChooseShape(s: Sched, quantum: int, timing: Timing)
    requires Inv(s) && s.queue != []
    ensures var c := Choose(s, s.queue, quantum, timing);
      && (s.currentProcess.None? || s.quantumRemaining <= 0 ==>
            c.next == s.queue[0] && c.quantumRemaining == quantum)
      && (s.currentProcess.Some? && s.quantumRemaining > 0 ==>
            c.next == s.currentProcess.value && c.quantumRemaining == s.quantumRemaining)
  {
    if s.currentProcess.Some? {
      var j := FindIndex(s.processes, s.currentProcess.value);
      assert ProcessOk(s.processes[j]);
    }
  }

  /** What the queue becomes when a quantum expires: the process the rotation
      updater read goes to the back (the expiring process under `Eager`, the
      newly chosen head under `Deferred`), unless that process completes in
      this very tick, in which case it leaves the queue. */
  lemma QueueRotation(s: Sched, quantum: int, timing: Timing)
    requires Inv(s) && quantum >= 1 && !AllCompleted(s.processes)
    requires s.currentProcess.Some? && s.quantumRemaining <= 0 && IsActive(s.processes, s.currentProcess.value)
    ensures s.queue != []
    ensures var s' := Step(s, quantum, timing);
      var r := if timing == Eager then s.currentProcess.value else s.queue[0];
      IsActive(s'.processes, r) ==> s'.queue != [] && s'.queue[|s'.queue| - 1] == r
  {
    if timing == Eager {
      EagerRotation(s, quantum);
    } else {
      DeferredRotation(s, quantum);
    }
  }

  /** `QueueRotation` when the updater runs at once: the expiring process. */
  lemma EagerRotation(s: Sched, quantum: int)
    requires Inv(s) && quantum >= 1 && !AllCompleted(s.processes)
    requires s.currentProcess.Some? && s.quantumRemaining <= 0 && IsActive(s.processes, s.currentProcess.value)
    ensures var s' := Step(s, quantum, Eager);
      var cur := s.currentProcess.value;
      IsActive(s'.processes, cur) ==> s'.queue != [] && s'.queue[|s'.queue| - 1] == cur
  {
    StepShape(s, quantum, Eager);
    var c := Choose(s, s.queue, quantum, Eager);
    var k := FindIndex(s.processes, c.next);
    RunShape(s, c, k);
    var cur := s.currentProcess.value;
    var j := FindIndex(s.processes, cur);
    assert ProcessOk(s.processes[j]);
    assert c.queue == Rotate(s.queue, cur);
    var s' := Step(s, quantum, Eager);
    FindAfterUpdate(s.processes, k, s'.processes[k], cur);
    if s.processes[k].remainingTime <= 1 && c.next != cur {
      assert s'.queue == Without(Without(s.queue, cur) + [cur], c.next);
      WithoutAppend(Without(s.queue, cur), [cur], c.next);
      WithoutFacts([cur], c.next);
    }
  }

  /** `QueueRotation` when the updater is deferred: the newly chosen head. */
  lemma DeferredRotation(s: Sched, quantum: int)
    requires Inv(s) && quantum >= 1 && !AllCompleted(s.processes)
    requires s.currentProcess.Some? && s.quantumRemaining <= 0 && IsActive(s.processes, s.currentProcess.value)
    ensures s.queue != []
    ensures var s' := Step(s, quantum, Deferred);
      IsActive(s'.processes, s.queue[0]) ==> s'.queue != [] && s'.queue[|s'.queue| - 1] == s.queue[0]
  {
    StepShape(s, quantum, Deferred);
    var c := Choose(s, s.queue, quantum, Deferred);
    var k := FindIndex(s.processes, c.next);
    RunShape(s, c, k);
    var j := FindIndex(s.processes, s.currentProcess.value);
    assert ProcessOk(s.processes[j]);
    assert c.queue == Rotate(s.queue, c.next);
    FindAfterUpdate(s.processes, k, Step(s, quantum, Deferred).processes[k], c.next);
  }

  lemma {:induction false} WithoutAppend(a: seq<int>, b: seq<int>, id: int)
    ensures Without(a + b, id) == Without(a, id) + Without(b, id)
    decreases |a|
  {
    if a == [] {
      assert a + b == b;
    } else {
      var x := a[0];
      var tail := a[1..];
      assert a + b == [x] + (tail + b);
      WithoutAppend(tail, b, id);
      WithoutCons(x, tail + b, id);
      WithoutCons(x, tail, id);
      assert [x] + tail == a;
      if x != id {
        calc {
          Without(a + b, id);
          [x] + Without(tail + b, id);
          [x] + (Without(tail, id) + Without(b, id));
          ([x] + Without(tail, id)) + Without(b, id);
          Without(a, id) + Without(b, id);
        }
      }
    }
  }

  lemma WithoutCons(x: int, q: seq<int>, id: int)
    ensures Without([x] + q, id) == (if x == id then [] else [x]) + Without(q, id)
  {
    assert ([x] + q)[0] == x && ([x] + q)[1..] == q;
  }

  /** Ticks with work left each run one unit of work, whatever timing each
      tick takes: the invariant holds, the remaining work drops by the number
      of ticks and the clock advances by as much. */
  lemma {:induction false} TicksConsumeWork(s: Sched, quantum: int, timings: seq<Timing>)
    requires Inv(s) && quantum >= 1 && |timings| <= Total(s.processes, Left)
    ensures var t := Steps(s, quantum, timings);
      && Inv(t)
      && Total(t.processes, Left) == Total(s.processes, Left) - |timings|
      && t.currentTime == s.currentTime + |timings|
      && t.isRunning == s.isRunning
    decreases |timings|
  {
    if timings != [] {
      NoWorkLeft(s.processes);
      RunningTickRunsOne(s, quantum, timings[0]);
      StepKeepsInv(s, quantum, timings[0]);
      TicksConsumeWork(Step(s, quantum, timings[0]), quantum, timings[1..]);
    }
  }

  /** Every process completes after exactly as many running ticks as there is
      work in total, whatever timing each tick takes; before that some process
      is still incomplete; the next tick only stops the run. */
  lemma RunsToCompletion(s: Sched, quantum: int, timings: seq<Timing>, next: Timing, m: nat)
    requires Inv(s) && quantum >= 1 && |timings| == Total(s.processes, Left)
    ensures AllCompleted(Steps(s, quantum, timings).processes)
    ensures Step(Steps(s, quantum, timings), quantum, next) == Steps(s, quantum, timings).(isRunning := false)
    ensures m < |timings| ==> !AllCompleted(Steps(s, quantum, timings[..m]).processes)
  {
    TicksConsumeWork(s, quantum, timings);
    NoWorkLeft(Steps(s, quantum, timings).processes);
    IdleTickOnlyStops(Steps(s, quantum, timings), quantum, next);
    if m < |timings| {
      TicksConsumeWork(s, quantum, timings[..m]);
      NoWorkLeft(Steps(s, quantum, timings[..m]).processes);
    }
  }

  /** The default processes carry 21 units of work (bursts 6, 4, 8 and 3). */
  lemma DefaultWork()
    ensures Total(InitialProcesses, Left) == 21
  {
    assert Total(InitialProcesses[3..], Left) == 3;
    assert Total(InitialProcesses[1..], Left) == 15;
  }

  /** With the default processes and any quantum the slider allows, the run
      completes every process after 21 ticks, at time 21, and stops on the
      tick after, whatever timing each tick takes. */
  lemma DefaultRunCompletes(quantum: int, timings: seq<Timing>, next: Timing)
    requires 1 <= quantum <= 5 && |timings| == 21
    ensures var s := Initial(quantum).(isRunning := true);
      var t := Steps(s, quantum, timings);
      && AllCompleted(t.processes) && t.currentTime == 21 && t.isRunning
      && Step(t, quantum, next) == t.(isRunning := false)
      && forall m: nat :: m < 21 ==> !AllCompleted(Steps(s, quantum, timings[..m]).processes)
  {
    DefaultWork();
    var s := Initial(quantum).(isRunning := true);
    assert Inv(s) by {
      InitialInv(quantum);
    }
    var t := Steps(s, quantum, timings);
    assert AllCompleted(t.processes) && Step(t, quantum, next) == t.(isRunning := false) by {
      RunsToCompletion(s, quantum, timings, next, 0);
    }
    assert t.currentTime == 21 && t.isRunning by {
      TicksConsumeWork(s, quantum, timings);
    }
    forall m: nat | m < 21
      ensures !AllCompleted(Steps(s, quantum, timings[..m]).processes)
    {
      RunsToCompletion(s, quantum, timings, next, m);
    }
  }

  /** The default state, started under quantum 3, after `t` ticks of P1, for t <= 3. */
  function P1RanFor(t: int): Sched
    requires 0 <= t <= 3
  {
    Sched(InitialProcesses[0 := InitialProcesses[0].(remainingTime := 6 - t)], [1, 2, 3, 4], 3 - t,
          if t == 0 then None else Some(1), t,
          if t == 0 then [] else [TimelineBlock(1, 0, t, 0)], true)
  }

  /** In every state P1RanFor(t) the whole queue is active. */
  lemma P1QueueActive(t: int)
    requires 0 <= t <= 3
    ensures ActiveQueue(P1RanFor(t).queue, P1RanFor(t).processes) == [1, 2, 3, 4]
    ensures IsActive(P1RanFor(t).processes, 1)
  {
    var ps := P1RanFor(t).processes;
    FindUnique(ps, 0);
    FindUnique(ps, 1);
    FindUnique(ps, 2);
    FindUnique(ps, 3);
    ActiveIsWholeQueue([1, 2, 3, 4], ps);
  }

  /** Running P1 for one more tick of its quantum. */
  lemma P1Run(t: int, c: Choice)
    requires 0 <= t < 3 && c.next == 1 && c.queue == [1, 2, 3, 4] && c.quantumRemaining == 3 - t
    ensures RunChosen(P1RanFor(t), c) == P1RanFor(t + 1)
  {
    var s := P1RanFor(t);
    assert FindIndex(s.processes, 1) == 0;
    RunShape(s, c, 0);
  }

  /** P1RanFor(0) is the default state once started under quantum 3. */
  lemma StartedUnderQuantum3()
    ensures P1RanFor(0) == Initial(3).(isRunning := true)
  {
  }

  /** Started under quantum 3, the default run gives P1 its first three ticks. */
  lemma P1Tick(t: int, timing: Timing)
    requires 0 <= t < 3
    ensures Step(P1RanFor(t), 3, timing) == P1RanFor(t + 1)
  {
    P1QueueActive(t);
    var s := P1RanFor(t);
    var c := Choose(s, [1, 2, 3, 4], 3, timing);
    assert c == Choice(1, [1, 2, 3, 4], 3 - t);
    P1Run(t, c);
  }

  lemma RotateFirst()
    ensures Rotate([1, 2, 3, 4], 1) == [2, 3, 4, 1]
  {
    assert [1, 2, 3, 4][1..] == [2, 3, 4];
    assert Without([2, 3, 4], 1) == [2, 3, 4];
  }

  /** When P1's quantum has run out the queue is rotated, but P1 is chosen again. */
  lemma FourthChoice(timing: Timing)
    ensures Choose(P1RanFor(3), [1, 2, 3, 4], 3, timing) == Choice(1, [2, 3, 4, 1], 3)
  {
    P1QueueActive(3);
    RotateFirst();
  }

  lemma FourthRun()
    ensures var t := RunChosen(P1RanFor(3), Choice(1, [2, 3, 4, 1], 3));
      && t.currentProcess == Some(1)
      && t.queue == [2, 3, 4, 1]
      && t.quantumRemaining == 2
      && t.timeline == [TimelineBlock(1, 0, 4, 0)]
  {
    var s := P1RanFor(3);
    assert FindIndex(s.processes, 1) == 0;
    RunShape(s, Choice(1, [2, 3, 4, 1], 3), 0);
  }

  /** The head of the queue is read before the rotation takes effect: with
      quantum 3, once P1 has run its first three ticks its quantum has
      expired, it is moved to the back of the queue, and yet the fourth tick
      picks P1 again with a fresh quantum, extending its Gantt block to [0, 4). */
  lemma ExpiredProcessPickedAgain(timing: Timing)
    ensures var t := Step(P1RanFor(3), 3, timing);
      && t.currentProcess == Some(1)
      && t.queue == [2, 3, 4, 1]
      && t.quantumRemaining == 2
      && t.timeline == [TimelineBlock(1, 0, 4, 0)]
  {
    P1QueueActive(3);
    FourthChoice(timing);
    assert Step(P1RanFor(3), 3, timing) == RunChosen(P1RanFor(3), Choice(1, [2, 3, 4, 1], 3));
    FourthRun();
  }

  /** Quantum 2, P1 has run its first four ticks (its quantum expired at the
      third and it was rotated and picked again) and its quantum has now run
      out a second time with the queue at [2, 3, 4, 1]. Both readings of the
      rotation updater pick P2 next, but only the deferred one rotates P2 to
      the back of the queue; the eager one rotates P1, already at the back. */
  lemma ReadingsDiffer()
    ensures var s := Sched(InitialProcesses[0 := InitialProcesses[0].(remainingTime := 2)],
                           [2, 3, 4, 1], 0, Some(1), 4, [TimelineBlock(1, 0, 4, 0)], true);
      && Choose(s, [2, 3, 4, 1], 2, Eager) == Choice(2, [2, 3, 4, 1], 2)
      && Choose(s, [2, 3, 4, 1], 2, Deferred) == Choice(2, [3, 4, 1, 2], 2)
  {
    var s := Sched(InitialProcesses[0 := InitialProcesses[0].(remainingTime := 2)],
                   [2, 3, 4, 1], 0, Some(1), 4, [TimelineBlock(1, 0, 4, 0)], true);
    assert FindIndex(s.processes, 1) == 0;
    assert [2, 3, 4, 1][1..] == [3, 4, 1] && [3, 4, 1][1..] == [4, 1] && [4, 1][1..] == [1];
    assert Without([2, 3, 4, 1], 1) == [2, 3, 4];
    assert Without([2, 3, 4, 1], 2) == [3, 4, 1];
  }
}
