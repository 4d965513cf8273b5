/** The synchronization page (Synchronization.tsx): three processes share one
    critical section guarded by a binary semaphore, a shared counter counts
    the exits, and a separate button replays a lost update between two
    unsynchronized increments. */
module Semaphore {
  import opened Optional
  import BoundedLog

  datatype ProcState = Waiting | Critical | Done

  datatype SyncProcess = SyncProcess(id: int, state: ProcState, progress: int)

  /** A log line, without its time stamp. */
  datatype SyncLog = Enter(id: int) | Exit(id: int) | Completed | Race(expected: int, got: int)

  /** The log panel keeps the 10 newest lines. */
  const LogCap: nat := 10

  /** Progress a process makes per firing inside the critical section. */
  const Stride: int := 20

  /** Firings a process needs from waiting to done: one to enter and five
      strides of 20. */
  const PerProcess: nat := 6

  /** The fields the interval reads and writes, as one value. */
  datatype Sem = Sem(processes: seq<SyncProcess>, semaphoreValue: int, sharedCounter: int, isRunning: bool, logs: seq<SyncLog>)

  /** Three waiting processes with ids 1..3. */
  const InitialProcesses: seq<SyncProcess> :=
    [SyncProcess(1, Waiting, 0), SyncProcess(2, Waiting, 0), SyncProcess(3, Waiting, 0)]

  /** The state on load and after `resetSimulation`. */
  const Initial: Sem := Sem(InitialProcesses, 1, 0, false, [])

  /** `find(p => p.state === "critical")`: the first critical process. */
  function FindCritical(ps: seq<SyncProcess>): (r: Option<nat>)
    ensures r.Some? ==> (r.value < |ps| && ps[r.value].state == Critical
      && forall i :: 0 <= i < r.value ==> ps[i].state != Critical)
    ensures r.None? ==> forall i :: 0 <= i < |ps| ==> ps[i].state != Critical
  {
    if ps == [] then None
    else if ps[0].state == Critical then Some(0)
    else match FindCritical(ps[1..])
      case None => None
      case Some(k) => Some(k + 1)
  }

  /** `filter(p => p.state === "waiting")[0]`: the first waiting process. */
  function FirstWaiting(ps: seq<SyncProcess>): (r: Option<nat>)
    ensures r.Some? ==> (r.value < |ps| && ps[r.value].state == Waiting
      && forall i :: 0 <= i < r.value ==> ps[i].state != Waiting)
    ensures r.None? ==> forall i :: 0 <= i < |ps| ==> ps[i].state != Waiting
  {
    if ps == [] then None
    else if ps[0].state == Waiting then Some(0)
    else match FirstWaiting(ps[1..])
      case None => None
      case Some(k) => Some(k + 1)
  }

  predicate AllDone(ps: seq<SyncProcess>)
  {
    forall i :: 0 <= i < |ps| ==> ps[i].state == Done
  }

  /** The critical process `i` advances by one stride; at 100 it is done,
      returns the permit (signal), is counted and logged. */
  function ExitOrAdvance(s: Sem, i: nat): (r: Sem)
    requires i < |s.processes|
    ensures |r.processes| == |s.processes|
  {
    var p := s.processes[i];
    var progress := p.progress + Stride;
    if progress >= 100 then
      s.(processes := s.processes[i := p.(state := Done, progress := 100)],
         semaphoreValue := s.semaphoreValue + 1,
         sharedCounter := s.sharedCounter + 1,
         logs := BoundedLog.Append(s.logs, LogCap, Exit(p.id)))
    else
      s.(processes := s.processes[i := p.(progress := progress)])
  }

  /** Process `j` takes the permit (wait) and enters. */
  function Admit(s: Sem, j: nat): (r: Sem)
    requires j < |s.processes|
    ensures |r.processes| == |s.processes|
  {
    s.(processes := s.processes[j := s.processes[j].(state := Critical)],
       semaphoreValue := s.semaphoreValue - 1,
       logs := BoundedLog.Append(s.logs, LogCap, Enter(s.processes[j].id)))
  }

  /** Lines 49-68 of the tick: advance the critical process if there is one,
      otherwise admit the first waiting process when the semaphore allows. */
  function Progressed(s: Sem): (r: Sem)
    ensures |r.processes| == |s.processes|
  {
    match FindCritical(s.processes)
    case Some(i) => ExitOrAdvance(s, i)
    case None =>
      match FirstWaiting(s.processes)
      case Some(j) => if s.semaphoreValue > 0 then Admit(s, j) else s
      case None => s
  }

  /** One firing of the 500 ms interval; the run stops once all are done. */
  function Step(s: Sem): (r: Sem)
    ensures |r.processes| == |s.processes|
  {
    var s1 := Progressed(s);
    if AllDone(s1.processes) then
      s1.(isRunning := false, logs := BoundedLog.Append(s1.logs, LogCap, Completed))
    else s1
  }

  /** A firing if the interval is running; nothing otherwise. */
  function Next(s: Sem): Sem
  {
    if s.isRunning then Step(s) else s
  }

  /** `f` applied `n` times. */
  function Iterate<T>(f: T -> T, x: T, n: nat): T
  {
    if n == 0 then x else f(Iterate(f, x, n - 1))
  }

  /** The state after `n` more firings of the interval. */
  function Steps(s: Sem, n: nat): Sem
  {
    Iterate(Next, s, n)
  }

  // ---------------------------------------------------------------------------
  // Invariants.

  function CountState(ps: seq<SyncProcess>, st: ProcState): nat
  {
    if ps == [] then 0
    else CountState(ps[..|ps| - 1], st) + (if ps[|ps| - 1].state == st then 1 else 0)
  }

  /** Where a state sits in the list: done processes first, then the
      critical one, then the waiting ones. */
  function Rank(st: ProcState): nat
  {
    match st
    case Done => 0
    case Critical => 1
    case Waiting => 2
  }

  /** Waiting processes have not started, a critical one is part way
      through in steps of 20, a done one is complete. */
  predicate ProcessOk(p: SyncProcess)
  {
    match p.state
    case Waiting => p.progress == 0
    case Critical => 0 <= p.progress < 100 && p.progress % Stride == 0
    case Done => p.progress == 100
  }

  /** The semaphore holds the one permit that no critical process holds;
      processes keep their ids 1..n and are served in list order. */
  predicate Inv(s: Sem)
  {
    var ps := s.processes;
    0 <= s.semaphoreValue && s.semaphoreValue + CountState(ps, Critical) == 1
    && |s.logs| <= LogCap
    && (forall i :: 0 <= i < |ps| ==> ps[i].id == i + 1 && ProcessOk(ps[i]))
    && (forall i, j :: 0 <= i < j < |ps| ==> Rank(ps[i].state) <= Rank(ps[j].state))
  }

  /** The shared counter counts the processes that have left the critical section. */
  predicate CounterOk(s: Sem)
  {
    s.sharedCounter == CountState(s.processes, Done)
  }

  lemma {:induction false} CountUpdate(ps: seq<SyncProcess>, i: int, p: SyncProcess, st: ProcState)
    requires 0 <= i < |ps|
    ensures CountState(ps[i := p], st) + (if ps[i].state == st then 1 else 0)
         == CountState(ps, st) + (if p.state == st then 1 else 0)
    decreases |ps|
  {
    var n := |ps| - 1;
    if i < n {
      CountUpdate(ps[..n], i, p, st);
      assert ps[i := p][..n] == ps[..n][i := p];
    } else {
      assert ps[i := p][..n] == ps[..n];
    }
  }

  lemma {:induction false} CountNone(ps: seq<SyncProcess>, st: ProcState)
    requires forall i :: 0 <= i < |ps| ==> ps[i].state != st
    ensures CountState(ps, st) == 0
  {
    if ps != [] {
      CountNone(ps[..|ps| - 1], st);
    }
  }

  lemma {:induction false} CountAll(ps: seq<SyncProcess>, st: ProcState)
    requires forall i :: 0 <= i < |ps| ==> ps[i].state == st
    ensures CountState(ps, st) == |ps|
  {
    if ps != [] {
      CountAll(ps[..|ps| - 1], st);
    }
  }

  lemma InitialInv()
    ensures Inv(Initial) && CounterOk(Initial)
  {
    CountNone(InitialProcesses, Critical);
    CountNone(InitialProcesses, Done);
  }

  /** Two critical processes are the same process. */
  lemma OneCritical(s: Sem, i: nat, j: nat)
    requires Inv(s) && i < |s.processes| && j < |s.processes|
    requires s.processes[i].state == Critical && s.processes[j].state == Critical
    ensures i == j
  {
    if i != j {
      var ps := s.processes;
      CountUpdate(ps, i, ps[i].(state := Done), Critical);
      var qs := ps[i := ps[i].(state := Done)];
      assert qs[j].state == Critical;
      CountPositive(qs, j);
    }
  }

  lemma {:induction false} CountPositive(ps: seq<SyncProcess>, j: nat)
    requires j < |ps| && ps[j].state == Critical
    ensures CountState(ps, Critical) >= 1
  {
    var n := |ps| - 1;
    if j < n {
      CountPositive(ps[..n], j);
    }
  }

  /** Mutual exclusion: at most one process is critical, and the semaphore is 0 or 1. */
  lemma MutualExclusion(s: Sem)
    requires Inv(s)
    ensures CountState(s.processes, Critical) <= 1
    ensures s.semaphoreValue == 0 || s.semaphoreValue == 1
    ensures s.semaphoreValue == 1 <==> forall i :: 0 <= i < |s.processes| ==> s.processes[i].state != Critical
  {
    if s.semaphoreValue == 1 {
      forall i | 0 <= i < |s.processes|
        ensures s.processes[i].state != Critical
      {
        if s.processes[i].state == Critical {
          CountPositive(s.processes, i);
        }
      }
    } else {
      if forall i :: 0 <= i < |s.processes| ==> s.processes[i].state != Critical {
        CountNone(s.processes, Critical);
      }
    }
  }

  /** With a critical process, the firing advances that process and admits nobody. */
  lemma CriticalAdvances(s: Sem, i: nat)
    requires Inv(s) && i < |s.processes| && s.processes[i].state == Critical
    ensures Progressed(s) == ExitOrAdvance(s, i)
  {
    var f := FindCritical(s.processes);
    assert f.Some?;
    OneCritical(s, f.value, i);
  }

  /** Advancing the critical process keeps the invariant and the count of exits. */
  lemma ExitKeepsInv(s: Sem, i: nat)
    requires Inv(s) && i < |s.processes| && s.processes[i].state == Critical
    ensures Inv(ExitOrAdvance(s, i))
    ensures CounterOk(s) ==> CounterOk(ExitOrAdvance(s, i))
  {
    if s.processes[i].progress + Stride >= 100 {
      FinishKeepsInv(s, i);
    } else {
      StrideKeepsInv(s, i);
    }
  }

  lemma StrideKeepsInv(s: Sem, i: nat)
    requires Inv(s) && i < |s.processes| && s.processes[i].state == Critical
    requires s.processes[i].progress + Stride < 100
    ensures Inv(ExitOrAdvance(s, i))
    ensures CounterOk(s) ==> CounterOk(ExitOrAdvance(s, i))
  {
    var ps := s.processes;
    var p := ps[i];
    var r := ExitOrAdvance(s, i);
    var qs := ps[i := p.(progress := p.progress + Stride)];
    assert r == s.(processes := qs);
    CountUpdate(ps, i, qs[i], Critical);
    CountUpdate(ps, i, qs[i], Done);
    assert ProcessOk(qs[i]);
    forall a | 0 <= a < |qs|
      ensures qs[a].state == ps[a].state && qs[a].id == ps[a].id && ProcessOk(qs[a])
    {
    }
  }

  /** The critical process finishing: it is done at 100%, it releases the
      permit (signal), the shared counter goes up by one and its exit is logged;
      nothing else changes and the invariant holds afterwards. */
  lemma FinishKeepsInv(s: Sem, i: nat)
    requires Inv(s) && i < |s.processes| && s.processes[i].state == Critical
    requires s.processes[i].progress + Stride >= 100
    ensures var r := ExitOrAdvance(s, i);
      && r.processes == s.processes[i := s.processes[i].(state := Done, progress := 100)]
      && r.semaphoreValue == s.semaphoreValue + 1
      && r.sharedCounter == s.sharedCounter + 1
      && r.logs == BoundedLog.Append(s.logs, LogCap, Exit(s.processes[i].id))
    ensures Inv(ExitOrAdvance(s, i))
    ensures CounterOk(s) ==> CounterOk(ExitOrAdvance(s, i))
  {
    var ps := s.processes;
    var r := ExitOrAdvance(s, i);
    var qs := r.processes;
    assert qs == ps[i := ps[i].(state := Done, progress := 100)];
    CountUpdate(ps, i, qs[i], Critical);
    CountUpdate(ps, i, qs[i], Done);
    assert |r.logs| <= LogCap;
    forall a, b | 0 <= a < b < |qs|
      ensures Rank(qs[a].state) <= Rank(qs[b].state)
    {
      if b == i {
        assert Rank(ps[a].state) <= Rank(ps[i].state);
        if ps[a].state == Critical {
          OneCritical(s, a, i);
        }
      }
    }
  }

  /** The first waiting process enters while the semaphore is free. */
  lemma AdmitKeepsInv(s: Sem, j: nat)
    requires Inv(s) && FindCritical(s.processes).None? && FirstWaiting(s.processes) == Some(j)
    requires s.semaphoreValue > 0
    ensures Inv(Admit(s, j))
    ensures CounterOk(s) ==> CounterOk(Admit(s, j))
  {
    var ps := s.processes;
    var qs := Admit(s, j).processes;
    CountUpdate(ps, j, qs[j], Critical);
    CountUpdate(ps, j, qs[j], Done);
    forall a, b | 0 <= a < b < |qs|
      ensures Rank(qs[a].state) <= Rank(qs[b].state)
    {
      if a == j {
        assert Rank(ps[j].state) <= Rank(ps[b].state);
      } else if b == j {
        assert ps[a].state != Waiting && ps[a].state != Critical;
      }
    }
  }

  /** The first half of a firing keeps the invariant and the count of exits. */
  lemma ProgressedKeepsInv(s: Sem)
    requires Inv(s)
    ensures Inv(Progressed(s))
    ensures CounterOk(s) ==> CounterOk(Progressed(s))
  {
    match FindCritical(s.processes)
    case Some(i) =>
      ExitKeepsInv(s, i);
    case None =>
      match FirstWaiting(s.processes)
      case Some(j) =>
        if s.semaphoreValue > 0 {
          AdmitKeepsInv(s, j);
        }
      case None =>
  }

  /** Every firing keeps the invariant, and the counter keeps counting exits. */
  lemma StepKeepsInv(s: Sem)
    requires Inv(s)
    ensures Inv(Step(s))
    ensures CounterOk(s) ==> CounterOk(Step(s))
  {
    ProgressedKeepsInv(s);
  }

  /** A done process is never touched again. */
  lemma DoneStays(s: Sem, i: nat)
    requires i < |s.processes| && s.processes[i].state == Done
    ensures Step(s).processes[i] == s.processes[i]
  {
    assert Step(s).processes == Progressed(s).processes;
    match FindCritical(s.processes)
    case Some(k) =>
      assert k != i;
    case None =>
      match FirstWaiting(s.processes)
      case Some(j) =>
        assert j != i;
      case None =>
  }

  /** Processes enter in list order: the one admitted has only done
      processes before it, and it took the free permit. */
  lemma EntersInOrder(s: Sem, j: nat)
    requires Inv(s) && j < |s.processes|
    requires s.processes[j].state == Waiting && Step(s).processes[j].state == Critical
    ensures forall i :: 0 <= i < j ==> s.processes[i].state == Done
    ensures FindCritical(s.processes).None? && s.semaphoreValue == 1
  {
    MutualExclusion(s);
    assert Step(s).processes == Progressed(s).processes;
    match FindCritical(s.processes)
    case Some(k) =>
      assert false;
    case None =>
  }

  /** The run stops exactly when every process is done, and the permit is then
      back. When the counter still counts the done processes (no race demo has
      overwritten it), it then reads the number of processes. */
  lemma StopsWhenAllDone(s: Sem)
    requires Inv(s) && s.isRunning
    ensures var r := Step(s);
      !r.isRunning <==> AllDone(r.processes)
    ensures var r := Step(s);
      AllDone(r.processes) ==> r.semaphoreValue == 1 && (CounterOk(s) ==> r.sharedCounter == |r.processes|)
  {
    StepKeepsInv(s);
    var r := Step(s);
    if AllDone(r.processes) {
      CountAll(r.processes, Done);
      CountNone(r.processes, Critical);
    }
  }

  // ---------------------------------------------------------------------------
  // The race-condition demo.

  /** The unsynchronized increments, in the order the nested timeouts fix:
      both threads read the counter before either writes it back, so one
      increment is lost and the result falls short of the expected value. */
  method RaceInterleaving() returns (got: int, expected: int)
    ensures expected == 3 && got == 1
  {
    var counter := 0;
    expected := 3;
    var read1 := counter;
    var read2 := counter;
    counter := read1 + 1;
    counter := read2 + 1;
    got := counter;
  }
}
