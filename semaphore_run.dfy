/** A whole run of the synchronization demo from its reset state: each
    process in turn enters, advances and leaves, and the interval stops once
    all are done. */
module SemaphoreRun {
  import opened Semaphore

  /** The first `k` processes are done and the others still wait. */
  predicate Before(s: Sem, k: nat)
  {
    Inv(s) && CounterOk(s) && k <= |s.processes|
    && (forall i :: 0 <= i < k ==> s.processes[i].state == Done)
    && (forall i :: k <= i < |s.processes| ==> s.processes[i].state == Waiting)
  }

  /** Process `k` is in the critical section at `progress`; those before it
      are done and those after it wait. */
  predicate Serving(s: Sem, k: nat, progress: int)
  {
    Inv(s) && CounterOk(s) && k < |s.processes| && s.isRunning
    && (forall i :: 0 <= i < k ==> s.processes[i].state == Done)
    && s.processes[k].state == Critical && s.processes[k].progress == progress
    && (forall i :: k < i < |s.processes| ==> s.processes[i].state == Waiting)
  }

  /** With the section free, the next process enters. */
  lemma EnterStep(s: Sem, k: nat)
    requires Before(s, k) && k < |s.processes| && s.isRunning
    ensures Serving(Next(s), k, 0) && |Next(s).processes| == |s.processes|
  {
    MutualExclusion(s);
    assert FindCritical(s.processes).None?;
    var j := FirstWaiting(s.processes);
    assert s.processes[k].state == Waiting;
    assert j.Some?;
    assert j.value == k;
    StepKeepsInv(s);
    assert !AllDone(Step(s).processes) by {
      assert Step(s).processes[k].state == Critical;
    }
  }

  /** Inside the section, a process below 80 advances by one stride. */
  lemma AdvanceStep(s: Sem, k: nat, progress: int)
    requires Serving(s, k, progress) && progress + Stride < 100
    ensures Serving(Next(s), k, progress + Stride) && |Next(s).processes| == |s.processes|
  {
    CriticalAdvances(s, k);
    StepKeepsInv(s);
    assert !AllDone(Step(s).processes) by {
      assert Step(s).processes[k].state == Critical;
    }
  }

  /** At 80 the process leaves the section; the run stops after the last one. */
  lemma LeaveStep(s: Sem, k: nat)
    requires Serving(s, k, 100 - Stride)
    ensures Before(Next(s), k + 1) && |Next(s).processes| == |s.processes|
    ensures Next(s).isRunning <==> k + 1 < |s.processes|
  {
    CriticalAdvances(s, k);
    StepKeepsInv(s);
    var r := Step(s);
    if k + 1 < |s.processes| {
      assert !AllDone(r.processes) by {
        assert r.processes[k + 1].state == Waiting;
      }
    }
  }

  /** Firings compose. */
  lemma {:induction false} IterateAdd<T>(f: T -> T, x: T, a: nat, b: nat)
    ensures Iterate(f, x, a + b) == Iterate(f, Iterate(f, x, a), b)
  {
    if b > 0 {
      IterateAdd(f, x, a, b - 1);
    }
  }

  /** `m` strides in a row inside the section. */
  lemma {:induction false} AdvanceMany(s: Sem, k: nat, progress: int, m: nat)
    requires Serving(s, k, progress) && progress + Stride * m < 100
    ensures Serving(Steps(s, m), k, progress + Stride * m)
    ensures |Steps(s, m).processes| == |s.processes|
  {
    if m > 0 {
      AdvanceMany(s, k, progress, m - 1);
      var before := Steps(s, m - 1);
      AdvanceStep(before, k, progress + Stride * (m - 1));
      assert Steps(s, m) == Next(before);
    }
  }

  /** One process goes from waiting to done in six firings: one to enter and
      five strides of 20. */
  lemma ServeOne(s: Sem, k: nat)
    requires Before(s, k) && k < |s.processes| && s.isRunning
    ensures Before(Steps(s, PerProcess), k + 1) && |Steps(s, PerProcess).processes| == |s.processes|
    ensures Steps(s, PerProcess).isRunning <==> k + 1 < |s.processes|
  {
    EnterStep(s, k);
    var s1 := Next(s);
    assert Steps(s, 1) == s1;
    AdvanceMany(s1, k, 0, 4);
    var s5 := Steps(s1, 4);
    LeaveStep(s5, k);
    IterateAdd(Next, s, 1, 4);
    assert Steps(s, PerProcess) == Next(Steps(s, 5));
  }

  /** Every process is done and the interval has stopped. */
  predicate Finished(r: Sem, n: nat)
  {
    Before(r, n) && |r.processes| == n && !r.isRunning
  }

  /** Firings needed to serve `left` waiting processes, six each. */
  function RunLength(left: nat): nat
  {
    if left == 0 then 0 else PerProcess + RunLength(left - 1)
  }

  /** Six firings for the next process, then six for each process after it. */
  lemma StepsSplit(s: Sem, left: nat)
    requires left > 0
    ensures Steps(s, RunLength(left)) == Steps(Steps(s, PerProcess), RunLength(left - 1))
  {
    IterateAdd(Next, s, PerProcess, RunLength(left - 1));
  }

  /** The last process: six firings and the run is over. */
  lemma ServeLast(s: Sem, k: nat)
    requires Before(s, k) && k + 1 == |s.processes| && s.isRunning
    ensures Finished(Steps(s, RunLength(|s.processes| - k)), |s.processes|)
  {
    ServeOne(s, k);
    assert RunLength(|s.processes| - k) == PerProcess + RunLength(0);
  }

  /** Finishing from the state six firings on is finishing from here. */
  lemma JoinRest(s: Sem, n: nat, k: nat)
    requires k + 1 < n
    requires Finished(Steps(Steps(s, PerProcess), RunLength(n - (k + 1))), n)
    ensures Finished(Steps(s, RunLength(n - k)), n)
  {
    StepsSplit(s, n - k);
  }

  /** From `k` processes done, the rest finish in six firings each, and the
      run then stops with every process counted. */
  lemma {:induction false} ServeRest(s: Sem, k: nat)
    requires Before(s, k) && k < |s.processes| && s.isRunning
    ensures Finished(Steps(s, RunLength(|s.processes| - k)), |s.processes|)
    decreases |s.processes| - k
  {
    if k + 1 < |s.processes| {
      ServeOne(s, k);
      ServeRest(Steps(s, PerProcess), k + 1);
      JoinRest(s, |s.processes|, k);
    } else {
      ServeLast(s, k);
    }
  }

  /** Once every process is done, the counter has counted each of them and
      the permit is back. */
  lemma AllServed(s: Sem)
    requires Before(s, |s.processes|)
    ensures AllDone(s.processes) && s.sharedCounter == |s.processes| && s.semaphoreValue == 1
  {
    CountAll(s.processes, Done);
    CountNone(s.processes, Critical);
  }

  /** Started from the reset state, the demo runs six firings per process,
      18 in all: every process is done, the counter reads 3, the permit is
      back and the interval has stopped. */
  lemma DefaultRun()
    ensures var r := Steps(Initial.(isRunning := true), 18);
      AllDone(r.processes) && !r.isRunning && r.sharedCounter == 3 && r.semaphoreValue == 1
  {
    var s := Initial.(isRunning := true);
    InitialBefore();
    ServeRest(s, 0);
    assert RunLength(|s.processes| - 0) == 18;
    AllServed(Steps(s, 18));
  }

  lemma InitialBefore()
    ensures Before(Initial.(isRunning := true), 0) && |InitialProcesses| == 3
  {
    var s := Initial.(isRunning := true);
    var ps := InitialProcesses;
    assert s.processes == ps && s.semaphoreValue == 1 && s.sharedCounter == 0 && s.logs == [];
    assert forall i :: 0 <= i < |ps| ==> ps[i].state == Waiting && ps[i].progress == 0 && ps[i].id == i + 1;
    CountNone(ps, Critical);
    CountNone(ps, Done);
  }
}
