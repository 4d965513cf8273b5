/** The state of the Round-Robin page and the handlers that change it
    (Scheduling.tsx). Every tick is proved to be the `RoundRobin.Step` of the
    state before it, so the lemmas of that module apply to the page. */
module SchedulingPage {
  import opened Optional
  import opened RoundRobin

  class SchedulingView {
    var quantum: int
    var isRunning: bool
    var currentTime: int
    var currentProcess: Option<int>
    var processes: seq<Process>
    var timeline: seq<TimelineBlock>
    var queue: seq<int>
    var quantumRemaining: int

    /** The fields the interval reads and writes, as one value. */
    function Snapshot(): Sched
      reads this
    {
      Sched(processes, queue, quantumRemaining, currentProcess, currentTime, timeline, isRunning)
    }

    /** The quantum slider ranges over 1..5; the scheduling invariant holds. */
    ghost predicate Valid()
      reads this
    {
      1 <= quantum <= 5 && Inv(Snapshot())
    }

    /** The page as loaded: quantum 3 and the four default processes. */
    constructor ()
      ensures Valid() && quantum == 3 && Snapshot() == Initial(3)
    {
      quantum := 3;
      isRunning := false;
      currentTime := 0;
      currentProcess := None;
      processes := InitialProcesses;
      timeline := [];
      queue := InitialQueue;
      quantumRemaining := 3;
      InitialInv(3);
    }

    /** `resetSimulation`: the default processes again, with the quantum now selected. */
    method Reset()
      requires Valid()
      modifies this
      ensures Valid() && quantum == old(quantum) && Snapshot() == Initial(quantum)
    {
      isRunning := false;
      currentTime := 0;
      currentProcess := None;
      processes := InitialProcesses;
      timeline := [];
      queue := InitialQueue;
      quantumRemaining := quantum;
      assert Snapshot() == Initial(quantum);
      InitialInv(quantum);
    }

    /** The quantum slider (1..5, disabled while running); the countdown in
        progress is left as it is. */
    method SetQuantum(v: int)
      requires Valid() && !isRunning && 1 <= v <= 5
      modifies this
      ensures Valid() && quantum == v && Snapshot() == old(Snapshot())
    {
      quantum := v;
    }

    /** The Start / Pause button, disabled once every process has completed. */
    method ToggleRunning()
      requires Valid() && !AllCompleted(processes)
      modifies this
      ensures Valid() && quantum == old(quantum)
      ensures Snapshot() == old(Snapshot()).(isRunning := !old(isRunning))
    {
      isRunning := !isRunning;
    }

    /** Lines 77-92 of the tick: the process to run, the queue after the
        rotation updater and the quantum counter after the restart. This and
        `RunNext` follow the interval callback statement by statement on the
        page's fields; the lemmas reason about the functions `Choose` and
        `RunChosen`, to which the two methods are proved equal. `timing` says
        when React runs the rotation updater. */
    method ChooseNext(activeQueue: seq<int>, timing: Timing) returns (next: int, newQueue: seq<int>, newQuantumRemaining: int)
      requires activeQueue != []
      ensures Choice(next, newQueue, newQuantumRemaining) == Choose(Snapshot(), activeQueue, quantum, timing)
    {
      newQueue := queue;
      newQuantumRemaining := quantumRemaining;
      var hasCurrent := currentProcess.Some? && currentProcess.value != 0;
      if !hasCurrent || quantumRemaining <= 0 {
        if hasCurrent && IsActive(processes, currentProcess.value) {
          var rotated := if timing == Eager then currentProcess.value else activeQueue[0];
          newQueue := Rotate(newQueue, rotated);
        }
        next := activeQueue[0];
        newQuantumRemaining := quantum;
      } else {
        next := currentProcess.value;
      }
    }

    /** Lines 94-132 of the tick: run the chosen process for one time unit. */
    method RunNext(next: int, newQueue: seq<int>, newQuantumRemaining: int)
      modifies this
      ensures quantum == old(quantum) && isRunning == old(isRunning)
      ensures Snapshot() == RunChosen(old(Snapshot()), Choice(next, newQueue, newQuantumRemaining))
    {
      ghost var before := Snapshot();
      ghost var choice := Choice(next, newQueue, newQuantumRemaining);
      var q := newQueue;
      var qr := newQuantumRemaining;
      if next != 0 {
        var processIndex := FindIndex(processes, next);
        if processIndex != -1 {
          RunShape(before, choice, processIndex);
          var process := processes[processIndex];
          process := process.(remainingTime := process.remainingTime - 1);
          timeline := MergeTimeline(timeline, next, currentTime, process.color);
          if process.remainingTime <= 0 {
            process := process.(completed := true);
            q := Without(q, next);
            qr := 0;
          } else {
            qr := qr - 1;
          }
          processes := processes[processIndex := process];
          currentProcess := Some(next);
        }
      }
      currentTime := currentTime + 1;
      queue := q;
      quantumRemaining := qr;
    }

    /** One firing of the 500 ms interval, which exists only while running. */
    method Tick(timing: Timing)
      requires Valid()
      modifies this
      ensures Valid() && quantum == old(quantum)
      ensures old(isRunning) ==> Snapshot() == Step(old(Snapshot()), quantum, timing)
      ensures !old(isRunning) ==> Snapshot() == old(Snapshot())
    {
      if !isRunning {
        return;
      }
      StepKeepsInv(Snapshot(), quantum, timing);
      var activeQueue := ActiveQueue(queue, processes);
      if activeQueue == [] {
        isRunning := false;
        return;
      }
      var next, newQueue, newQuantumRemaining := ChooseNext(activeQueue, timing);
      RunNext(next, newQueue, newQuantumRemaining);
    }
  }
}
