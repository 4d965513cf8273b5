/** The decorative thread animation on the landing page (Index.tsx): every
    two seconds each demo thread either keeps its state or moves one step along
    new, ready, running, waiting, terminated, and a terminated thread starts
    over as new. */
module Landing {
  import opened ThreadStates
  import Lifecycle

  datatype DemoThread = DemoThread(id: int, state: ThreadState)

  const InitialThreads: seq<DemoThread> :=
    [DemoThread(1, Running), DemoThread(2, Ready), DemoThread(3, Waiting),
     DemoThread(4, Ready), DemoThread(5, New)]

  /** The five demo threads, with ids 1..5 in order. */
  predicate DemoIds(threads: seq<DemoThread>)
  {
    |threads| == 5 && forall i :: 0 <= i < 5 ==> threads[i].id == i + 1
  }

  /** The page starts with the five demo threads. */
  lemma InitialDemoIds()
    ensures DemoIds(InitialThreads)
  {
  }

  /** The move the landing page allows: a terminated thread restarts as new; any
      other thread stays put or advances to the next state of `Order`. */
  predicate LandingMove(s: ThreadState, r: ThreadState)
  {
    if s == Terminated then r == New
    else r == s || IndexOf(r) == IndexOf(s) + 1
  }

  /** The next state of one thread; `advance` stands for `Math.random() > 0.3`.
      The wrap-around `% 5` is never taken, because a terminated thread is
      handled first. */
  function NextState(s: ThreadState, advance: bool): (r: ThreadState)
    ensures LandingMove(s, r)
    ensures s != Terminated ==> (r != s <==> advance)
  {
    var currentIndex := IndexOf(s);
    if s == Terminated then New
    else
      var nextIndex := if advance then (currentIndex + 1) % 5 else currentIndex;
      Order[nextIndex]
  }

  /** One firing of the interval: `prev.map(...)` with one coin per thread. */
  function Tick(threads: seq<DemoThread>, advance: seq<bool>): (r: seq<DemoThread>)
    requires |advance| == |threads|
    ensures |r| == |threads|
    ensures forall i :: 0 <= i < |r| ==> r[i].id == threads[i].id && LandingMove(threads[i].state, r[i].state)
  {
    seq(|threads|, i requires 0 <= i < |threads| =>
      threads[i].(state := NextState(threads[i].state, advance[i])))
  }

  /** A tick keeps the five demo threads and their ids, whatever the coins. */
  lemma TickKeepsDemoIds(threads: seq<DemoThread>, advance: seq<bool>)
    requires DemoIds(threads) && |advance| == 5
    ensures DemoIds(Tick(threads, advance))
  {
  }

  /** The index arithmetic never wraps: a state that is not terminated sits at
      index 0..3, so the next index is at most 4. */
  lemma NoWrapAround(s: ThreadState)
    requires s != Terminated
    ensures IndexOf(s) + 1 <= 4
    ensures (IndexOf(s) + 1) % 5 == IndexOf(s) + 1
  {
  }

  /** Every move `LandingMove` allows is produced by some outcome of the coin,
      so `NextState` realises exactly the allowed moves. */
  lemma {:induction false} EveryMoveRealised(s: ThreadState, r: ThreadState)
    requires LandingMove(s, r)
    ensures exists advance: bool {:trigger NextState(s, advance)} :: NextState(s, advance) == r
  {
    if s == Terminated {
      assert NextState(s, true) == r;
    } else if r == s {
      assert NextState(s, false) == r;
    } else {
      assert IndexOf(r) == IndexOf(s) + 1;
      assert Order[IndexOf(s) + 1] == r;
      assert NextState(s, true) == r;
    }
  }

  /** Five consecutive advancing ticks from any state return a thread to the
      state it started in: the landing animation is a cycle through all five states. */
  lemma {:induction false} FiveAdvancesCycle(s: ThreadState)
    ensures NextState(NextState(NextState(NextState(NextState(s, true), true), true), true), true) == s
  {
    match s
    case New =>
    case Ready =>
    case Running =>
    case Waiting =>
    case Terminated =>
  }

  /** Against the life-cycle table: the landing animation's advances
      new->ready, ready->running and running->waiting are listed transitions,
      but waiting->terminated and the restart terminated->new are not. */
  lemma {:induction false} LandingMovesAgainstTable(s: ThreadState, r: ThreadState)
    requires LandingMove(s, r) && r != s
    ensures Lifecycle.Edge(s, r) <==> s in {New, Ready, Running}
  {
    Lifecycle.SuccessorsAreListed(s);
    assert IndexOf(r) == IndexOf(s) + 1 || (s == Terminated && r == New);
  }
}
