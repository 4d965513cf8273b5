/** The state of the synchronization page and its handlers
    (Synchronization.tsx). Every tick is proved to be the `Semaphore.Step` of
    the state before it, so the lemmas of that module apply to the page. */
module SemaphorePage {
  import opened Semaphore
  import BoundedLog

  class SyncView {
    var processes: seq<SyncProcess>
    var semaphoreValue: int
    var sharedCounter: int
    var isRunning: bool
    var logs: seq<SyncLog>
    var raceCondition: bool

    /** The fields the interval reads and writes, as one value. */
    function Snapshot(): Sem
      reads this
    {
      Sem(processes, semaphoreValue, sharedCounter, isRunning, logs)
    }

    ghost predicate Valid()
      reads this
    {
      Inv(Snapshot())
    }

    /** The page as loaded. */
    constructor ()
      ensures Valid() && CounterOk(Snapshot())
      ensures Snapshot() == Initial && !raceCondition
    {
      processes := InitialProcesses;
      semaphoreValue := 1;
      sharedCounter := 0;
      isRunning := false;
      logs := [];
      raceCondition := false;
      InitialInv();
    }

    /** `resetSimulation`. */
    method Reset()
      modifies this
      ensures Valid() && CounterOk(Snapshot())
      ensures Snapshot() == Initial && !raceCondition
    {
      isRunning := false;
      semaphoreValue := 1;
      processes := InitialProcesses;
      sharedCounter := 0;
      raceCondition := false;
      logs := [];
      InitialInv();
    }

    /** Start / Pause. */
    method ToggleRunning()
      requires Valid()
      modifies this
      ensures Valid()
      ensures Snapshot() == old(Snapshot()).(isRunning := !old(isRunning))
      ensures raceCondition == old(raceCondition)
    {
      isRunning := !isRunning;
    }

    /** One firing of the 500 ms interval, which exists only while running. */
    method Tick()
      requires Valid()
      modifies this
      ensures Valid() && raceCondition == old(raceCondition)
      ensures old(isRunning) ==> Snapshot() == Step(old(Snapshot()))
      ensures !old(isRunning) ==> Snapshot() == old(Snapshot())
      ensures CounterOk(old(Snapshot())) ==> CounterOk(Snapshot())
    {
      if !isRunning {
        return;
      }
      StepKeepsInv(Snapshot());
      Advance();
      if AllDone(processes) {
        isRunning := false;
        logs := BoundedLog.Append(logs, LogCap, Completed);
      }
    }

    /** Lines 49-68 of the tick: the critical process is updated in place,
        or the first waiting process enters. */
    method Advance()
      modifies this
      ensures Snapshot() == Progressed(old(Snapshot())) && raceCondition == old(raceCondition)
    {
      var critical := FindCritical(processes);
      if critical.Some? {
        var i := critical.value;
        var p := processes[i];
        var progress := p.progress + Stride;
        if progress >= 100 {
          processes := processes[i := p.(state := Done, progress := 100)];
          semaphoreValue := semaphoreValue + 1;
          logs := BoundedLog.Append(logs, LogCap, Exit(p.id));
          sharedCounter := sharedCounter + 1;
        } else {
          processes := processes[i := p.(progress := progress)];
        }
      } else {
        var waiting := FirstWaiting(processes);
        if waiting.Some? && semaphoreValue > 0 {
          var j := waiting.value;
          logs := BoundedLog.Append(logs, LogCap, Enter(processes[j].id));
          processes := processes[j := processes[j].(state := Critical)];
          semaphoreValue := semaphoreValue - 1;
        }
      }
    }

    /** The race button, first part: flag the race and clear the counter. */
    method StartRace()
      requires Valid()
      modifies this
      ensures Valid() && raceCondition && sharedCounter == 0
      ensures Snapshot() == old(Snapshot()).(sharedCounter := 0)
    {
      raceCondition := true;
      sharedCounter := 0;
    }

    /** The race button, last timeout: the lost update is shown and logged.
        A pending demo still lands after a reset, which does not cancel it. */
    method FinishRace()
      requires Valid()
      modifies this
      ensures Valid() && raceCondition == old(raceCondition)
      ensures sharedCounter == 1
      ensures logs == BoundedLog.Append(old(logs), LogCap, Race(3, 1))
      ensures processes == old(processes) && semaphoreValue == old(semaphoreValue) && isRunning == old(isRunning)
    {
      var got, expected := RaceInterleaving();
      sharedCounter := got;
      logs := BoundedLog.Append(logs, LogCap, Race(expected, got));
    }
  }
}
