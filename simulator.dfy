/** The thread simulator (Simulator.tsx): user threads move through the life
    cycle on every firing of an interval, and at most as many of them run at
    once as the threading model provides kernel threads.

    One firing works on a copy of the thread list in four passes: new threads
    become ready; running threads make progress and may finish, block on I/O
    or be preempted; waiting threads may wake up; and ready threads are
    dispatched, in list order, into the free kernel slots. The outcomes of
    `Math.random()` are inputs: one coin per thread for each draw. */
module Simulator {
  import opened ThreadStates
  import Lifecycle

  datatype SimThread = SimThread(id: int, state: ThreadState, progress: int, createdAt: int)

  datatype ThreadingModel = ManyToOne | OneToOne | ManyToMany

  /** A log line, without its time stamp. */
  datatype SimLog = Created(id: int) | Removed(id: int) | Moved(id: int, from: ThreadState, to: ThreadState)

  /** The log panel keeps the 20 newest lines. */
  const LogCap: nat := 20

  /** The kernel threads a model offers for `n` user threads: one for
      many-to-one, one each for one-to-one, and half of them (rounded up) but
      at most four for many-to-many. */
  function KernelThreads(model: ThreadingModel, n: nat): (r: nat)
    ensures model == ManyToOne ==> r == 1
    ensures model == OneToOne ==> r == n
    ensures model == ManyToMany ==> r <= 4 && (r < 4 ==> 2 * r - 1 <= n <= 2 * r) && (r == 4 ==> n >= 7)
  {
    match model
    case ManyToOne => 1
    case OneToOne => n
    case ManyToMany => var half := (n + 1) / 2; if half < 4 then half else 4
  }

  /** How many threads may run at once: the many-to-one model is pinned to one. */
  function MaxRunning(model: ThreadingModel, kernelThreads: int): int
  {
    if model == ManyToOne then 1 else kernelThreads
  }

  /** The number of threads of `ts` in state `s`. */
  function CountState(ts: seq<SimThread>, s: ThreadState): nat
  {
    if ts == [] then 0
    else CountState(ts[..|ts| - 1], s) + (if ts[|ts| - 1].state == s then 1 else 0)
  }

  /** A thread's progress is a percentage, and it is full exactly when the
      thread has terminated. */
  predicate ProgressOk(t: SimThread)
  {
    0 <= t.progress <= 100 && (t.state == Terminated <==> t.progress == 100)
  }

  /** The same threads, in the same order, whatever their states. */
  predicate SameThreads(a: seq<SimThread>, b: seq<SimThread>)
  {
    |a| == |b| && forall i :: 0 <= i < |a| ==> a[i].id == b[i].id && a[i].createdAt == b[i].createdAt
  }

  // The four passes, thread by thread.

  function Admit(t: SimThread): SimThread
  {
    if t.state == New then t.(state := Ready) else t
  }

  /** A running thread advances by `increment`; at 100 it terminates,
      otherwise the first coin sends it to I/O and the second preempts it. */
  function Run(t: SimThread, increment: int, wait: bool, preempt: bool): SimThread
  {
    if t.state != Running then t
    else
      var progress := t.progress + increment;
      if progress >= 100 then t.(state := Terminated, progress := 100)
      else if wait then t.(state := Waiting, progress := progress)
      else if preempt then t.(state := Ready, progress := progress)
      else t.(progress := progress)
  }

  function Wake(t: SimThread, wake: bool): SimThread
  {
    if t.state == Waiting && wake then t.(state := Ready) else t
  }

  /** A ready thread runs when fewer than `slots` ready threads precede it. */
  function DispatchOne(t: SimThread, readyBefore: nat, slots: int): SimThread
  {
    if t.state == Ready && readyBefore < slots then t.(state := Running) else t
  }

  // The four passes over the list.

  function Admitted(ts: seq<SimThread>): seq<SimThread>
  {
    seq(|ts|, i requires 0 <= i < |ts| => Admit(ts[i]))
  }

  function Ran(ts: seq<SimThread>, increment: int, waits: seq<bool>, preempts: seq<bool>): seq<SimThread>
    requires |waits| == |ts| && |preempts| == |ts|
  {
    seq(|ts|, i requires 0 <= i < |ts| => Run(ts[i], increment, waits[i], preempts[i]))
  }

  function Woken(ts: seq<SimThread>, wakes: seq<bool>): seq<SimThread>
    requires |wakes| == |ts|
  {
    seq(|ts|, i requires 0 <= i < |ts| => Wake(ts[i], wakes[i]))
  }

  function Dispatched(ts: seq<SimThread>, slots: int): seq<SimThread>
  {
    seq(|ts|, i requires 0 <= i < |ts| => DispatchOne(ts[i], CountState(ts[..i], Ready), slots))
  }

  /** The coins: one per thread and draw. */
  predicate CoinsFit(prev: seq<SimThread>, waits: seq<bool>, preempts: seq<bool>, wakes: seq<bool>)
  {
    |waits| == |prev| && |preempts| == |prev| && |wakes| == |prev|
  }

  /** The list after the first three passes, before dispatching. */
  function Settled(prev: seq<SimThread>, increment: int, waits: seq<bool>, preempts: seq<bool>, wakes: seq<bool>): seq<SimThread>
    requires CoinsFit(prev, waits, preempts, wakes)
  {
    Woken(Ran(Admitted(prev), increment, waits, preempts), wakes)
  }

  /** One firing of the simulation interval. */
  function Tick(prev: seq<SimThread>, maxRunning: int, increment: int, waits: seq<bool>, preempts: seq<bool>, wakes: seq<bool>): seq<SimThread>
    requires CoinsFit(prev, waits, preempts, wakes)
  {
    var settled := Settled(prev, increment, waits, preempts, wakes);
    var slots := maxRunning - CountState(settled, Running);
    if slots > 0 then Dispatched(settled, slots) else settled
  }

  /** One log line per thread whose state differs, in list order. */
  function Changes(before: seq<SimThread>, after: seq<SimThread>): seq<SimLog>
    requires |before| == |after|
  {
    if before == [] then []
    else
      var n := |before| - 1;
      Changes(before[..n], after[..n])
        + (if before[n].state != after[n].state then [Moved(before[n].id, before[n].state, after[n].state)] else [])
  }

  /** The lines one firing logs: each pass logs the state changes it makes. */
  function TickLog(prev: seq<SimThread>, maxRunning: int, increment: int, waits: seq<bool>, preempts: seq<bool>, wakes: seq<bool>): seq<SimLog>
    requires CoinsFit(prev, waits, preempts, wakes)
  {
    var admitted := Admitted(prev);
    var ran := Ran(admitted, increment, waits, preempts);
    var woken := Woken(ran, wakes);
    Changes(prev, admitted) + Changes(admitted, ran) + Changes(ran, woken)
      + Changes(woken, Tick(prev, maxRunning, increment, waits, preempts, wakes))
  }

  /** Extending both lists by one thread extends the log by that thread's line. */
  lemma ChangesSnoc(before: seq<SimThread>, after: seq<SimThread>, i: nat)
    requires |before| == |after| && i < |before|
    ensures Changes(before[..i + 1], after[..i + 1])
         == Changes(before[..i], after[..i])
          + (if before[i].state != after[i].state then [Moved(before[i].id, before[i].state, after[i].state)] else [])
  {
    assert before[..i + 1][..i] == before[..i];
    assert after[..i + 1][..i] == after[..i];
  }

  /** A pass that changes no state logs nothing. */
  lemma {:induction false} NoChangesNoLog(before: seq<SimThread>, after: seq<SimThread>)
    requires |before| == |after|
    requires forall i :: 0 <= i < |before| ==> before[i].state == after[i].state
    ensures Changes(before, after) == []
  {
    if before != [] {
      NoChangesNoLog(before[..|before| - 1], after[..|after| - 1]);
    }
  }

  /** The interval's state updater: four passes over a copy of the list, each
      logging the transitions it makes. */
  method TickThreads(prev: seq<SimThread>, maxRunning: int, increment: int, waits: seq<bool>, preempts: seq<bool>, wakes: seq<bool>)
    returns (updated: seq<SimThread>, msgs: seq<SimLog>)
    requires CoinsFit(prev, waits, preempts, wakes)
    ensures updated == Tick(prev, maxRunning, increment, waits, preempts, wakes)
    ensures msgs == TickLog(prev, maxRunning, increment, waits, preempts, wakes)
  {
    var admitted, log1 := AdmitPass(prev);
    var ran, log2 := RunPass(admitted, increment, waits, preempts);
    var woken, log3 := WakePass(ran, wakes);
    var log4;
    updated, log4 := DispatchPass(woken, maxRunning);
    msgs := log1 + log2 + log3 + log4;
  }

  // Threads are addressed by position below; the source looks each one up by
  // id, which finds the same position because ids are distinct.

  /** New threads become ready. */
  method AdmitPass(prev: seq<SimThread>) returns (updated: seq<SimThread>, msgs: seq<SimLog>)
    ensures updated == Admitted(prev)
    ensures msgs == Changes(prev, updated)
  {
    updated := prev;
    msgs := [];
    var i := 0;
    while i < |prev|
      invariant 0 <= i <= |prev| && |updated| == |prev|
      invariant forall j :: 0 <= j < i ==> updated[j] == Admit(prev[j])
      invariant forall j :: i <= j < |prev| ==> updated[j] == prev[j]
      invariant msgs == Changes(prev[..i], updated[..i])
    {
      ghost var before := updated;
      if prev[i].state == New {
        updated := updated[i := updated[i].(state := Ready)];
        msgs := msgs + [Moved(prev[i].id, New, Ready)];
      }
      assert updated[..i] == before[..i];
      ChangesSnoc(prev, updated, i);
      i := i + 1;
    }
    assert prev[..|prev|] == prev && updated[..|prev|] == updated;
  }

  /** Threads that were running when the firing began make progress. */
  method RunPass(prev: seq<SimThread>, increment: int, waits: seq<bool>, preempts: seq<bool>)
    returns (updated: seq<SimThread>, msgs: seq<SimLog>)
    requires |waits| == |prev| && |preempts| == |prev|
    ensures updated == Ran(prev, increment, waits, preempts)
    ensures msgs == Changes(prev, updated)
  {
    updated := prev;
    msgs := [];
    var i := 0;
    while i < |prev|
      invariant 0 <= i <= |prev| && |updated| == |prev|
      invariant forall j :: 0 <= j < i ==> updated[j] == Run(prev[j], increment, waits[j], preempts[j])
      invariant forall j :: i <= j < |prev| ==> updated[j] == prev[j]
      invariant msgs == Changes(prev[..i], updated[..i])
    {
      ghost var before := updated;
      if prev[i].state == Running {
        var progress := prev[i].progress + increment;
        if progress >= 100 {
          updated := updated[i := updated[i].(state := Terminated, progress := 100)];
          msgs := msgs + [Moved(prev[i].id, Running, Terminated)];
        } else if waits[i] {
          updated := updated[i := updated[i].(state := Waiting, progress := progress)];
          msgs := msgs + [Moved(prev[i].id, Running, Waiting)];
        } else if preempts[i] {
          updated := updated[i := updated[i].(state := Ready, progress := progress)];
          msgs := msgs + [Moved(prev[i].id, Running, Ready)];
        } else {
          updated := updated[i := updated[i].(progress := progress)];
        }
      }
      assert updated[..i] == before[..i];
      ChangesSnoc(prev, updated, i);
      i := i + 1;
    }
    assert prev[..|prev|] == prev && updated[..|prev|] == updated;
  }

  /** Waiting threads whose coin comes up wake. */
  method WakePass(prev: seq<SimThread>, wakes: seq<bool>) returns (updated: seq<SimThread>, msgs: seq<SimLog>)
    requires |wakes| == |prev|
    ensures updated == Woken(prev, wakes)
    ensures msgs == Changes(prev, updated)
  {
    updated := prev;
    msgs := [];
    var i := 0;
    while i < |updated|
      invariant 0 <= i <= |prev| && |updated| == |prev|
      invariant forall j :: 0 <= j < i ==> updated[j] == Wake(prev[j], wakes[j])
      invariant forall j :: i <= j < |prev| ==> updated[j] == prev[j]
      invariant msgs == Changes(prev[..i], updated[..i])
    {
      ghost var before := updated;
      if updated[i].state == Waiting && wakes[i] {
        updated := updated[i := updated[i].(state := Ready)];
        msgs := msgs + [Moved(updated[i].id, Waiting, Ready)];
      }
      assert updated[..i] == before[..i];
      ChangesSnoc(prev, updated, i);
      i := i + 1;
    }
    assert prev[..|prev|] == prev && updated[..|prev|] == updated;
  }

  /** Ready threads fill the free slots, first come first served. */
  method DispatchPass(prev: seq<SimThread>, maxRunning: int) returns (updated: seq<SimThread>, msgs: seq<SimLog>)
    ensures var slots := maxRunning - CountState(prev, Running);
      updated == if slots > 0 then Dispatched(prev, slots) else prev
    ensures msgs == Changes(prev, updated)
  {
    var availableSlots := maxRunning - CountState(prev, Running);
    if availableSlots <= 0 {
      NoChangesNoLog(prev, prev);
      return prev, [];
    }
    updated := prev;
    msgs := [];
    var readySeen := 0;
    var i := 0;
    while i < |prev|
      invariant DispatchLoopInv(prev, availableSlots, i, updated, msgs, readySeen)
    {
      ghost var before, logged, seen := updated, msgs, readySeen;
      DispatchReads(prev, availableSlots, i, updated, msgs, readySeen);
      if prev[i].state == Ready {
        if readySeen < availableSlots {
          updated := updated[i := prev[i].(state := Running)];
          msgs := msgs + [Moved(prev[i].id, Ready, Running)];
        }
        readySeen := readySeen + 1;
      }
      DispatchAdvance(prev, availableSlots, i, before, logged, seen);
      i := i + 1;
    }
    assert prev[..|prev|] == prev && updated[..|prev|] == updated;
  }

  /** The loop invariant of the dispatch pass after `i` threads. */
  ghost predicate DispatchLoopInv(prev: seq<SimThread>, slots: int, i: int,
                                  updated: seq<SimThread>, msgs: seq<SimLog>, readySeen: int)
  {
    && 0 <= i <= |prev| && |updated| == |prev|
    && readySeen == CountState(prev[..i], Ready)
    && updated[..i] == Dispatched(prev[..i], slots)
    && updated[i..] == prev[i..]
    && msgs == Changes(prev[..i], Dispatched(prev[..i], slots))
  }

  /** The thread the loop looks at next is still untouched. */
  lemma DispatchReads(prev: seq<SimThread>, slots: int, i: int,
                      updated: seq<SimThread>, msgs: seq<SimLog>, readySeen: int)
    requires DispatchLoopInv(prev, slots, i, updated, msgs, readySeen) && i < |prev|
    ensures updated[i] == prev[i]
  {
    assert updated[i..][0] == prev[i..][0];
  }

  /** One more thread dispatched keeps the loop invariant. */
  lemma DispatchAdvance(prev: seq<SimThread>, slots: int, i: int,
                        updated: seq<SimThread>, msgs: seq<SimLog>, readySeen: int)
    requires DispatchLoopInv(prev, slots, i, updated, msgs, readySeen) && i < |prev|
    ensures var t := DispatchOne(prev[i], readySeen, slots);
      DispatchLoopInv(prev, slots, i + 1, updated[i := t],
        msgs + (if t.state != prev[i].state then [Moved(prev[i].id, prev[i].state, t.state)] else []),
        readySeen + (if prev[i].state == Ready then 1 else 0))
  {
    var t := DispatchOne(prev[i], readySeen, slots);
    var u := updated[i := t];
    DispatchedSnoc(prev, slots, i);
    assert prev[..i + 1][..i] == prev[..i];
    assert u[..i + 1] == updated[..i] + [t];
    assert u[i + 1..] == updated[i + 1..];
    assert updated[i + 1..] == prev[i + 1..] by {
      assert updated[i + 1..] == updated[i..][1..];
    }
  }

  /** Dispatching one more thread extends the dispatched prefix by that thread. */
  lemma DispatchedSnoc(ts: seq<SimThread>, slots: int, i: nat)
    requires i < |ts|
    ensures var d := Dispatched(ts[..i + 1], slots);
      d == Dispatched(ts[..i], slots) + [DispatchOne(ts[i], CountState(ts[..i], Ready), slots)]
      && Changes(ts[..i + 1], d)
         == Changes(ts[..i], Dispatched(ts[..i], slots))
          + (if ts[i].state != d[i].state then [Moved(ts[i].id, ts[i].state, d[i].state)] else [])
  {
    var d := Dispatched(ts[..i + 1], slots);
    forall j | 0 <= j < i
      ensures d[j] == Dispatched(ts[..i], slots)[j]
    {
      assert ts[..i + 1][..j] == ts[..i][..j];
    }
    assert ts[..i + 1][..i] == ts[..i];
    assert d == Dispatched(ts[..i], slots) + [DispatchOne(ts[i], CountState(ts[..i], Ready), slots)];
    ChangesSnoc(ts[..i + 1], d, i);
    assert d[..i] == Dispatched(ts[..i], slots);
  }

  // ---------------------------------------------------------------------------
  // Properties of one firing.

  /** A firing changes states and progress only: the same threads stay, in order. */
  lemma TickKeepsThreads(prev: seq<SimThread>, maxRunning: int, increment: int, waits: seq<bool>, preempts: seq<bool>, wakes: seq<bool>)
    requires CoinsFit(prev, waits, preempts, wakes)
    ensures SameThreads(prev, Tick(prev, maxRunning, increment, waits, preempts, wakes))
  {
  }

  /** Terminated threads are left exactly as they were. */
  lemma TerminatedStays(prev: seq<SimThread>, maxRunning: int, increment: int, waits: seq<bool>, preempts: seq<bool>, wakes: seq<bool>, i: int)
    requires CoinsFit(prev, waits, preempts, wakes)
    requires 0 <= i < |prev| && prev[i].state == Terminated
    ensures Tick(prev, maxRunning, increment, waits, preempts, wakes)[i] == prev[i]
  {
  }

  /** Every new thread is admitted in the firing that sees it: afterwards it is
      ready or, if a slot was free, running, with its progress untouched. */
  lemma NewThreadsAdmitted(prev: seq<SimThread>, maxRunning: int, increment: int, waits: seq<bool>, preempts: seq<bool>, wakes: seq<bool>, i: int)
    requires CoinsFit(prev, waits, preempts, wakes)
    requires 0 <= i < |prev|
    ensures var r := Tick(prev, maxRunning, increment, waits, preempts, wakes);
      r[i].state != New
      && (prev[i].state == New ==> r[i].state in {Ready, Running} && r[i].progress == prev[i].progress)
  {
  }

  /** Progress stays a percentage that is full exactly for terminated threads;
      it grows for the threads that were running and for no other. */
  lemma TickProgress(prev: seq<SimThread>, maxRunning: int, increment: int, waits: seq<bool>, preempts: seq<bool>, wakes: seq<bool>, i: int)
    requires CoinsFit(prev, waits, preempts, wakes)
    requires increment > 0 && 0 <= i < |prev| && ProgressOk(prev[i])
    ensures var r := Tick(prev, maxRunning, increment, waits, preempts, wakes);
      ProgressOk(r[i])
      && (prev[i].state == Running ==> r[i].progress == if prev[i].progress + increment >= 100 then 100 else prev[i].progress + increment)
      && (prev[i].state != Running ==> r[i].progress == prev[i].progress)
      && (r[i].progress > prev[i].progress <==> prev[i].state == Running)
  {
  }

  /** `b` has a thread in state `s` only where `a` has one. */
  lemma {:induction false} CountBelow(a: seq<SimThread>, b: seq<SimThread>, s: ThreadState)
    requires |a| == |b|
    requires forall i :: 0 <= i < |a| && b[i].state == s ==> a[i].state == s
    ensures CountState(b, s) <= CountState(a, s)
  {
    if a != [] {
      CountBelow(a[..|a| - 1], b[..|b| - 1], s);
    }
  }

  /** A prefix never has more threads in a state than the whole list. */
  lemma {:induction false} CountPrefix(ts: seq<SimThread>, s: ThreadState, i: nat, j: nat)
    requires i <= j <= |ts|
    ensures CountState(ts[..i], s) <= CountState(ts[..j], s)
    decreases j - i
  {
    if i < j {
      CountPrefix(ts, s, i, j - 1);
      assert ts[..j][..j - 1] == ts[..j - 1];
    }
  }

  /** Some thread is in state `s` exactly when the count is positive. */
  lemma {:induction false} CountPositive(ts: seq<SimThread>, s: ThreadState)
    ensures CountState(ts, s) > 0 <==> exists i :: 0 <= i < |ts| && ts[i].state == s
  {
    if ts != [] {
      var n := |ts| - 1;
      CountPositive(ts[..n], s);
      if exists i :: 0 <= i < |ts| && ts[i].state == s {
        var i :| 0 <= i < |ts| && ts[i].state == s;
        if i < n {
          assert ts[..n][i] == ts[i];
        }
      }
      if exists i :: 0 <= i < n && ts[..n][i].state == s {
        var i :| 0 <= i < n && ts[..n][i].state == s;
        assert ts[i].state == s;
      }
    }
  }

  /** Counting one more thread of a list. */
  lemma CountSnoc(ts: seq<SimThread>, s: ThreadState, i: nat)
    requires i < |ts|
    ensures CountState(ts[..i + 1], s) == CountState(ts[..i], s) + (if ts[i].state == s then 1 else 0)
  {
    assert ts[..i + 1][..i] == ts[..i];
  }

  /** Dispatching moves min(slots, ready) threads from ready to running. */
  lemma {:induction false} DispatchCounts(ts: seq<SimThread>, slots: int, n: nat)
    requires slots > 0 && n <= |ts|
    ensures var d := Dispatched(ts, slots)[..n];
      var moved := if CountState(ts[..n], Ready) < slots then CountState(ts[..n], Ready) else slots;
      CountState(d, Running) == CountState(ts[..n], Running) + moved
      && CountState(d, Ready) == CountState(ts[..n], Ready) - moved
  {
    if n > 0 {
      var i := n - 1;
      DispatchCounts(ts, slots, i);
      var d := Dispatched(ts, slots);
      assert d[i] == DispatchOne(ts[i], CountState(ts[..i], Ready), slots);
      CountSnoc(d, Running, i);
      CountSnoc(d, Ready, i);
      CountSnoc(ts, Running, i);
      CountSnoc(ts, Ready, i);
    }
  }

  /** The first three passes never start a thread. */
  lemma SettledRunsFewer(prev: seq<SimThread>, increment: int, waits: seq<bool>, preempts: seq<bool>, wakes: seq<bool>)
    requires CoinsFit(prev, waits, preempts, wakes)
    ensures CountState(Settled(prev, increment, waits, preempts, wakes), Running) <= CountState(prev, Running)
  {
    CountBelow(prev, Settled(prev, increment, waits, preempts, wakes), Running);
  }

  /** Over the whole list, dispatching moves min(slots, ready) threads from
      ready to running. */
  lemma DispatchTotals(ts: seq<SimThread>, slots: int)
    requires slots > 0
    ensures var moved := if CountState(ts, Ready) < slots then CountState(ts, Ready) else slots;
      CountState(Dispatched(ts, slots), Running) == CountState(ts, Running) + moved
      && CountState(Dispatched(ts, slots), Ready) == CountState(ts, Ready) - moved
  {
    DispatchCounts(ts, slots, |ts|);
    assert ts[..|ts|] == ts;
    assert Dispatched(ts, slots)[..|ts|] == Dispatched(ts, slots);
  }

  /** Dispatching never oversubscribes the kernel threads: after a firing at
      most `maxRunning` threads run, unless more than that were running
      before (the model or the thread count changed), and then no more than
      before. */
  lemma RunningBound(prev: seq<SimThread>, maxRunning: int, increment: int, waits: seq<bool>, preempts: seq<bool>, wakes: seq<bool>)
    requires CoinsFit(prev, waits, preempts, wakes)
    ensures var running := CountState(Tick(prev, maxRunning, increment, waits, preempts, wakes), Running);
      running <= maxRunning || running <= CountState(prev, Running)
  {
    var settled := Settled(prev, increment, waits, preempts, wakes);
    SettledRunsFewer(prev, increment, waits, preempts, wakes);
    var slots := maxRunning - CountState(settled, Running);
    if slots > 0 {
      DispatchTotals(settled, slots);
    }
  }

  /** No kernel thread idles while a thread is ready: when a ready thread is
      left over, all `maxRunning` slots are taken. */
  lemma NoIdleSlot(prev: seq<SimThread>, maxRunning: int, increment: int, waits: seq<bool>, preempts: seq<bool>, wakes: seq<bool>, i: int)
    requires CoinsFit(prev, waits, preempts, wakes)
    requires 0 <= i < |prev|
    requires Tick(prev, maxRunning, increment, waits, preempts, wakes)[i].state == Ready
    ensures CountState(Tick(prev, maxRunning, increment, waits, preempts, wakes), Running) >= maxRunning
  {
    var settled := Settled(prev, increment, waits, preempts, wakes);
    var r := Tick(prev, maxRunning, increment, waits, preempts, wakes);
    var slots := maxRunning - CountState(settled, Running);
    if slots > 0 {
      DispatchTotals(settled, slots);
      CountPositive(r, Ready);
    }
  }

  /** Ready threads are dispatched in list order: when a ready thread is
      started, every ready thread before it is started too. */
  lemma DispatchInListOrder(prev: seq<SimThread>, maxRunning: int, increment: int, waits: seq<bool>, preempts: seq<bool>, wakes: seq<bool>, i: int, j: int)
    requires CoinsFit(prev, waits, preempts, wakes)
    requires 0 <= j < i < |prev|
    requires var settled := Settled(prev, increment, waits, preempts, wakes);
      settled[i].state == Ready && settled[j].state == Ready
    requires Tick(prev, maxRunning, increment, waits, preempts, wakes)[i].state == Running
    ensures Tick(prev, maxRunning, increment, waits, preempts, wakes)[j].state == Running
  {
    var settled := Settled(prev, increment, waits, preempts, wakes);
    CountPrefix(settled, Ready, j + 1, i);
    assert settled[..j + 1][..j] == settled[..j];
  }

  /** Each pass moves a thread along at most one transition of the life-cycle table. */
  predicate MovesAlongTable(before: seq<SimThread>, after: seq<SimThread>)
  {
    |before| == |after|
    && forall i :: 0 <= i < |before| ==>
         before[i].state == after[i].state || after[i].state in Lifecycle.ListedTargets(before[i].state)
  }

  /** Every line of `log` records a transition the life-cycle table lists. */
  predicate TableMoves(log: seq<SimLog>)
  {
    forall m :: m in log ==> m.Moved? && Lifecycle.Edge(m.from, m.to)
  }

  lemma TableMovesConcat(a: seq<SimLog>, b: seq<SimLog>)
    requires TableMoves(a) && TableMoves(b)
    ensures TableMoves(a + b)
  {
  }

  /** The lines of such a pass each name a transition of the table. */
  lemma {:induction false} ChangesFollowTable(before: seq<SimThread>, after: seq<SimThread>)
    requires MovesAlongTable(before, after)
    ensures TableMoves(Changes(before, after))
  {
    if before != [] {
      var n := |before| - 1;
      assert MovesAlongTable(before[..n], after[..n]);
      ChangesFollowTable(before[..n], after[..n]);
      Lifecycle.SuccessorsAreListed(before[n].state);
      var last := if before[n].state != after[n].state then [Moved(before[n].id, before[n].state, after[n].state)] else [];
      TableMovesConcat(Changes(before[..n], after[..n]), last);
    }
  }

  /** Each of the four passes moves threads along the table only. */
  lemma PassesMoveAlongTable(prev: seq<SimThread>, maxRunning: int, increment: int, waits: seq<bool>, preempts: seq<bool>, wakes: seq<bool>)
    requires CoinsFit(prev, waits, preempts, wakes)
    ensures var admitted := Admitted(prev);
      var ran := Ran(admitted, increment, waits, preempts);
      var woken := Woken(ran, wakes);
      && MovesAlongTable(prev, admitted)
      && MovesAlongTable(admitted, ran)
      && MovesAlongTable(ran, woken)
      && MovesAlongTable(woken, Tick(prev, maxRunning, increment, waits, preempts, wakes))
  {
  }

  /** Every line a firing logs is a transition the life-cycle page lists. */
  lemma TickLogFollowsLifecycle(prev: seq<SimThread>, maxRunning: int, increment: int, waits: seq<bool>, preempts: seq<bool>, wakes: seq<bool>)
    requires CoinsFit(prev, waits, preempts, wakes)
    ensures forall m :: m in TickLog(prev, maxRunning, increment, waits, preempts, wakes) ==>
      m.Moved? && Lifecycle.Edge(m.from, m.to)
  {
    var admitted := Admitted(prev);
    var ran := Ran(admitted, increment, waits, preempts);
    var woken := Woken(ran, wakes);
    var r := Tick(prev, maxRunning, increment, waits, preempts, wakes);
    PassesMoveAlongTable(prev, maxRunning, increment, waits, preempts, wakes);
    ChangesFollowTable(prev, admitted);
    ChangesFollowTable(admitted, ran);
    ChangesFollowTable(ran, woken);
    ChangesFollowTable(woken, r);
    TableMovesConcat(Changes(prev, admitted), Changes(admitted, ran));
    TableMovesConcat(Changes(prev, admitted) + Changes(admitted, ran), Changes(ran, woken));
    TableMovesConcat(Changes(prev, admitted) + Changes(admitted, ran) + Changes(ran, woken), Changes(woken, r));
    assert TableMoves(TickLog(prev, maxRunning, increment, waits, preempts, wakes));
  }
}
