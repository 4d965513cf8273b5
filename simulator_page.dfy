/** The state of the simulator page and its handlers (Simulator.tsx). The
    kernel-thread count, which the page recomputes in an effect whenever the
    model or the number of threads changes, is recomputed by each handler
    that changes either. */
module SimulatorPage {
  import opened ThreadStates
  import opened Simulator
  import BoundedLog

  /** Ids are positive, below the next id to hand out and increasing along
      the list; every thread's progress is consistent with its state. */
  predicate ThreadsOk(threads: seq<SimThread>, nextId: int)
  {
    (forall i :: 0 <= i < |threads| ==> 0 < threads[i].id < nextId && ProgressOk(threads[i]))
    && IdsIncrease(threads)
  }

  /** `prev.filter(t => t.id !== id)`. */
  function WithoutThread(threads: seq<SimThread>, id: int): (r: seq<SimThread>)
    ensures |r| <= |threads|
    ensures forall i :: 0 <= i < |r| ==> r[i].id != id
  {
    if threads == [] then []
    else if threads[0].id == id then WithoutThread(threads[1..], id)
    else [threads[0]] + WithoutThread(threads[1..], id)
  }

  /** Exactly the threads with another id stay; with no thread of that id
      the list is unchanged. */
  lemma {:induction false} WithoutThreadMembers(threads: seq<SimThread>, id: int)
    ensures forall t :: t in WithoutThread(threads, id) <==> t in threads && t.id != id
    ensures (forall i :: 0 <= i < |threads| ==> threads[i].id != id) ==> WithoutThread(threads, id) == threads
  {
    if threads != [] {
      var tail := threads[1..];
      WithoutThreadMembers(tail, id);
      assert threads == [threads[0]] + tail;
      assert forall t :: t in threads <==> t == threads[0] || t in tail;
      if (forall i :: 0 <= i < |threads| ==> threads[i].id != id) {
        assert forall i :: 0 <= i < |tail| ==> tail[i].id != id by {
          forall i | 0 <= i < |tail|
            ensures tail[i].id != id
          {
            assert tail[i] == threads[i + 1];
          }
        }
      }
    }
  }

  /** Ids increasing along the list. */
  predicate IdsIncrease(threads: seq<SimThread>)
  {
    forall i, j :: 0 <= i < j < |threads| ==> threads[i].id < threads[j].id
  }

  /** Every id is above `bound`. */
  predicate IdsAbove(threads: seq<SimThread>, bound: int)
  {
    forall i :: 0 <= i < |threads| ==> threads[i].id > bound
  }

  /** Removing a thread keeps a lower bound on the ids. */
  lemma {:induction false} WithoutThreadAbove(threads: seq<SimThread>, id: int, bound: int)
    requires IdsAbove(threads, bound)
    ensures IdsAbove(WithoutThread(threads, id), bound)
  {
    if threads != [] {
      var tail := threads[1..];
      assert IdsAbove(tail, bound) by {
        forall i | 0 <= i < |tail|
          ensures tail[i].id > bound
        {
          assert tail[i] == threads[i + 1];
        }
      }
      WithoutThreadAbove(tail, id, bound);
      var rest := WithoutThread(tail, id);
      if threads[0].id != id {
        var r := [threads[0]] + rest;
        assert r == WithoutThread(threads, id);
        forall i | 0 <= i < |r|
          ensures r[i].id > bound
        {
          if i > 0 {
            assert r[i] == rest[i - 1];
          } else {
            assert r[i] == threads[0];
          }
        }
      }
    }
  }

  /** Removing a thread keeps the others in order, so ids still increase. */
  lemma {:induction false} WithoutThreadIncreasing(threads: seq<SimThread>, id: int)
    requires IdsIncrease(threads)
    ensures IdsIncrease(WithoutThread(threads, id))
  {
    if threads != [] {
      var tail := threads[1..];
      assert IdsIncrease(tail) by {
        forall i, j | 0 <= i < j < |tail|
          ensures tail[i].id < tail[j].id
        {
          assert tail[i] == threads[i + 1] && tail[j] == threads[j + 1];
        }
      }
      WithoutThreadIncreasing(tail, id);
      assert IdsAbove(tail, threads[0].id) by {
        forall i | 0 <= i < |tail|
          ensures tail[i].id > threads[0].id
        {
          assert tail[i] == threads[i + 1];
        }
      }
      WithoutThreadAbove(tail, id, threads[0].id);
      var rest := WithoutThread(tail, id);
      if threads[0].id != id {
        var r := [threads[0]] + rest;
        forall i, j | 0 <= i < j < |r|
          ensures r[i].id < r[j].id
        {
          assert r[j] == rest[j - 1];
          assert rest[j - 1].id > threads[0].id;
          if i > 0 {
            assert r[i] == rest[i - 1];
          } else {
            assert r[i] == threads[0];
          }
        }
      }
    }
  }

  /** Removing a thread keeps the list well formed. */
  lemma WithoutThreadOk(threads: seq<SimThread>, nextId: int, id: int)
    requires ThreadsOk(threads, nextId)
    ensures ThreadsOk(WithoutThread(threads, id), nextId)
  {
    var r := WithoutThread(threads, id);
    WithoutThreadIncreasing(threads, id);
    WithoutThreadMembers(threads, id);
    forall i | 0 <= i < |r|
      ensures 0 < r[i].id < nextId && ProgressOk(r[i])
    {
      assert r[i] in threads;
    }
  }

  /** A firing keeps the list well formed. */
  lemma TickThreadsOk(prev: seq<SimThread>, nextId: int, maxRunning: int, increment: int, waits: seq<bool>, preempts: seq<bool>, wakes: seq<bool>)
    requires CoinsFit(prev, waits, preempts, wakes)
    requires increment > 0 && ThreadsOk(prev, nextId)
    ensures ThreadsOk(Tick(prev, maxRunning, increment, waits, preempts, wakes), nextId)
  {
    TickKeepsThreads(prev, maxRunning, increment, waits, preempts, wakes);
    forall i | 0 <= i < |prev|
      ensures ProgressOk(Tick(prev, maxRunning, increment, waits, preempts, wakes)[i])
    {
      TickProgress(prev, maxRunning, increment, waits, preempts, wakes, i);
    }
  }

  /** Progress added per firing for a speed of `speedHalves` / 2. */
  function Increment(speedHalves: int): int
  {
    5 * speedHalves
  }

  class SimulatorView {
    var threads: seq<SimThread>
    var model: ThreadingModel
    var isRunning: bool
    /** The speed slider (0.5 to 3 in steps of 0.5) counted in halves. */
    var speedHalves: int
    var nextId: int
    var kernelThreads: int
    var logs: seq<SimLog>

    ghost predicate Valid()
      reads this
    {
      1 <= speedHalves <= 6 && nextId >= 1
      && kernelThreads == KernelThreads(model, |threads|)
      && |logs| <= LogCap
      && ThreadsOk(threads, nextId)
    }

    /** The page as loaded: no threads, many-to-one, speed 1, not running. */
    constructor ()
      ensures Valid()
      ensures threads == [] && model == ManyToOne && !isRunning && speedHalves == 2
      ensures nextId == 1 && kernelThreads == 1 && logs == []
    {
      threads := [];
      model := ManyToOne;
      isRunning := false;
      speedHalves := 2;
      nextId := 1;
      kernelThreads := 1;
      logs := [];
    }

    /** "Create Thread": a new thread with the next id, created at `now`. */
    method AddThread(now: int)
      requires Valid()
      modifies this
      ensures Valid()
      ensures threads == old(threads) + [SimThread(old(nextId), New, 0, now)]
      ensures nextId == old(nextId) + 1
      ensures logs == BoundedLog.Append(old(logs), LogCap, Created(old(nextId)))
      ensures model == old(model) && isRunning == old(isRunning) && speedHalves == old(speedHalves)
    {
      var thread := SimThread(nextId, New, 0, now);
      threads := threads + [thread];
      logs := BoundedLog.Append(logs, LogCap, Created(nextId));
      nextId := nextId + 1;
      kernelThreads := KernelThreads(model, |threads|);
    }

    /** The trash button of a thread: drop every thread with that id. */
    method RemoveThread(id: int)
      requires Valid()
      modifies this
      ensures Valid()
      ensures threads == WithoutThread(old(threads), id)
      ensures logs == BoundedLog.Append(old(logs), LogCap, Removed(id))
      ensures nextId == old(nextId) && model == old(model)
      ensures isRunning == old(isRunning) && speedHalves == old(speedHalves)
    {
      WithoutThreadOk(threads, nextId, id);
      threads := WithoutThread(threads, id);
      logs := BoundedLog.Append(logs, LogCap, Removed(id));
      kernelThreads := KernelThreads(model, |threads|);
    }

    /** The reset button: no threads, ids from 1 again, an empty log. */
    method Reset()
      requires Valid()
      modifies this
      ensures Valid()
      ensures !isRunning && threads == [] && nextId == 1 && logs == []
      ensures model == old(model) && speedHalves == old(speedHalves)
    {
      isRunning := false;
      threads := [];
      nextId := 1;
      logs := [];
      kernelThreads := KernelThreads(model, 0);
    }

    /** The threading-model selector. */
    method SetModel(m: ThreadingModel)
      requires Valid()
      modifies this
      ensures Valid()
      ensures model == m && kernelThreads == KernelThreads(m, |threads|)
      ensures threads == old(threads) && isRunning == old(isRunning) && logs == old(logs)
      ensures nextId == old(nextId) && speedHalves == old(speedHalves)
    {
      model := m;
      kernelThreads := KernelThreads(m, |threads|);
    }

    /** The speed slider. */
    method SetSpeed(halves: int)
      requires Valid() && 1 <= halves <= 6
      modifies this
      ensures Valid() && speedHalves == halves
      ensures threads == old(threads) && isRunning == old(isRunning) && logs == old(logs)
      ensures model == old(model) && nextId == old(nextId) && kernelThreads == old(kernelThreads)
    {
      speedHalves := halves;
    }

    /** Start / Pause, disabled while there are no threads. */
    method ToggleRunning()
      requires Valid() && threads != []
      modifies this
      ensures Valid() && isRunning == !old(isRunning)
      ensures threads == old(threads) && logs == old(logs) && speedHalves == old(speedHalves)
      ensures model == old(model) && nextId == old(nextId) && kernelThreads == old(kernelThreads)
    {
      isRunning := !isRunning;
    }

    /** One firing of the interval, which exists only while running with at
        least one thread. The coins are the outcomes of the random draws. */
    method Tick(waits: seq<bool>, preempts: seq<bool>, wakes: seq<bool>)
      requires Valid() && CoinsFit(threads, waits, preempts, wakes)
      modifies this
      ensures Valid()
      ensures var maxRunning := MaxRunning(model, kernelThreads);
        old(isRunning) && old(threads) != [] ==>
          threads == Simulator.Tick(old(threads), maxRunning, Increment(speedHalves), waits, preempts, wakes)
          && logs == BoundedLog.AppendAll(old(logs), LogCap,
               TickLog(old(threads), maxRunning, Increment(speedHalves), waits, preempts, wakes))
          && (CountState(threads, Running) <= maxRunning
              || CountState(threads, Running) <= CountState(old(threads), Running))
      ensures !(old(isRunning) && old(threads) != []) ==> threads == old(threads) && logs == old(logs)
      ensures isRunning == old(isRunning) && model == old(model) && speedHalves == old(speedHalves)
      ensures nextId == old(nextId) && kernelThreads == old(kernelThreads)
    {
      if !isRunning || threads == [] {
        return;
      }
      var maxRunning := MaxRunning(model, kernelThreads);
      var increment := Increment(speedHalves);
      TickThreadsOk(threads, nextId, maxRunning, increment, waits, preempts, wakes);
      RunningBound(threads, maxRunning, increment, waits, preempts, wakes);
      var updated, msgs := TickThreads(threads, maxRunning, increment, waits, preempts, wakes);
      BoundedLog.AppendAllKeepsNewest(logs, LogCap, msgs);
      threads := updated;
      logs := BoundedLog.AppendAll(logs, LogCap, msgs);
    }
  }
}
