/** The thread life-cycle page (Lifecycle.tsx): a constant table of the five
    states and their outgoing transitions, a scripted animation through one
    walk of that graph, and buttons that move the highlighted state. */
module Lifecycle {
  import opened ThreadStates
  import opened Optional

  datatype Transition = Transition(to: ThreadState, caption: string)

  datatype StateInfo = StateInfo(state: ThreadState, description: string, transitions: seq<Transition>)

  /** The `stateInfos` table. */
  const StateInfos: seq<StateInfo> := [
    StateInfo(New, "Thread has been created but not yet started. The start() method has not been invoked.",
      [Transition(Ready, "start()")]),
    StateInfo(Ready, "Thread is ready to run and waiting for CPU time. It's in the ready queue.",
      [Transition(Running, "dispatch")]),
    StateInfo(Running, "Thread is currently executing on the CPU. Only one thread per CPU can be in this state.",
      [Transition(Ready, "preempt / yield"), Transition(Waiting, "wait() / I/O"), Transition(Terminated, "exit()")]),
    StateInfo(Waiting, "Thread is blocked waiting for an event, I/O operation, or resource to become available.",
      [Transition(Ready, "notify() / I/O complete")]),
    StateInfo(Terminated, "Thread has completed execution or was explicitly terminated. Cannot be restarted.",
      [])
  ]

  /** The animation script `sequence`. */
  const Sequence: seq<ThreadState> := [New, Ready, Running, Waiting, Ready, Running, Terminated]

  /** `infos.find(s => s.state === state)`: the first entry for `state`, if any. */
  function Find(infos: seq<StateInfo>, state: ThreadState): (r: Option<StateInfo>)
    ensures r.Some? ==> r.value in infos && r.value.state == state
    ensures r.None? <==> forall i :: 0 <= i < |infos| ==> infos[i].state != state
  {
    if infos == [] then None
    else if infos[0].state == state then Some(infos[0])
    else Find(infos[1..], state)
  }

  /** How many entries of `infos` describe `state`. */
  function CountEntries(infos: seq<StateInfo>, state: ThreadState): nat
  {
    if infos == [] then 0
    else (if infos[0].state == state then 1 else 0) + CountEntries(infos[1..], state)
  }

  /** The table lists the states in display order. */
  lemma TableOrder()
    ensures |StateInfos| == |Order|
    ensures forall i :: 0 <= i < |Order| ==> StateInfos[i].state == Order[i]
  {
  }

  /** The entry at `k` is the first one for its state, so the lookup finds it. */
  lemma {:induction false} FindFirst(infos: seq<StateInfo>, state: ThreadState, k: nat)
    requires k < |infos| && infos[k].state == state
    requires forall i :: 0 <= i < k ==> infos[i].state != state
    ensures Find(infos, state) == Some(infos[k])
  {
    if k > 0 {
      FindFirst(infos[1..], state, k - 1);
    }
  }

  /** An entry at `k` and no other entry for its state: one entry in all. */
  lemma {:induction false} CountSingle(infos: seq<StateInfo>, state: ThreadState, k: nat)
    requires k < |infos| && infos[k].state == state
    requires forall i :: 0 <= i < |infos| && i != k ==> infos[i].state != state
    ensures CountEntries(infos, state) == 1
  {
    var tail := infos[1..];
    if k > 0 {
      CountSingle(tail, state, k - 1);
    } else {
      CountNone(tail, state);
    }
  }

  lemma {:induction false} CountNone(infos: seq<StateInfo>, state: ThreadState)
    requires forall i :: 0 <= i < |infos| ==> infos[i].state != state
    ensures CountEntries(infos, state) == 0
  {
    if infos != [] {
      CountNone(infos[1..], state);
    }
  }

  /** Each of the five states has exactly one entry, so the page's lookup of the
      active state always finds the one entry that describes it. */
  lemma OneEntryPerState(s: ThreadState)
    ensures CountEntries(StateInfos, s) == 1
    ensures Find(StateInfos, s) == Some(StateInfos[IndexOf(s)]) && StateInfos[IndexOf(s)].state == s
  {
    TableOrder();
    var k := IndexOf(s);
    CountSingle(StateInfos, s, k);
    FindFirst(StateInfos, s, k);
  }

  /** `transitions.map(t => t.to)`. */
  function Targets(ts: seq<Transition>): (r: seq<ThreadState>)
    ensures |r| == |ts| && forall i :: 0 <= i < |ts| ==> r[i] == ts[i].to
  {
    if ts == [] then [] else [ts[0].to] + Targets(ts[1..])
  }

  /** The targets of the transitions listed for `s`, in table order. */
  function Successors(s: ThreadState): (r: seq<ThreadState>)
  {
    match Find(StateInfos, s)
    case None => []
    case Some(info) => Targets(info.transitions)
  }

  /** `a -> b` is a transition listed in the table. */
  predicate Edge(a: ThreadState, b: ThreadState)
  {
    b in Successors(a)
  }

  /** The transitions of the page, written out state by state. */
  function ListedTargets(s: ThreadState): seq<ThreadState>
  {
    match s
    case New => [Ready]
    case Ready => [Running]
    case Running => [Ready, Waiting, Terminated]
    case Waiting => [Ready]
    case Terminated => []
  }

  /** Reading the table gives exactly the transitions written out above. */
  lemma SuccessorsAreListed(s: ThreadState)
    ensures Successors(s) == ListedTargets(s)
  {
    OneEntryPerState(s);
    var ts := StateInfos[IndexOf(s)].transitions;
    assert Successors(s) == Targets(ts);
  }

  /** "terminated" is the only state with no way out. */
  lemma OnlyTerminatedIsFinal(s: ThreadState)
    ensures Successors(s) == [] <==> s == Terminated
  {
    SuccessorsAreListed(s);
  }

  /** A walk through the table: every consecutive pair is a listed transition. */
  predicate IsPath(p: seq<ThreadState>)
  {
    |p| >= 1 && forall i :: 0 <= i < |p| - 1 ==> Edge(p[i], p[i + 1])
  }

  /** A walk along the written-out transitions is a walk of the table. */
  lemma ListedWalkIsPath(p: seq<ThreadState>)
    requires |p| >= 1
    requires forall i :: 0 <= i < |p| - 1 ==> p[i + 1] in ListedTargets(p[i])
    ensures IsPath(p)
  {
    forall i | 0 <= i < |p| - 1
      ensures Edge(p[i], p[i + 1])
    {
      SuccessorsAreListed(p[i]);
    }
  }

  /** A walk stopped early is still a walk. */
  lemma PrefixIsPath(p: seq<ThreadState>, n: nat)
    requires IsPath(p) && 1 <= n <= |p|
    ensures IsPath(p[..n])
  {
    forall i | 0 <= i < n - 1
      ensures Edge(p[..n][i], p[..n][i + 1])
    {
      assert p[..n][i] == p[i] && p[..n][i + 1] == p[i + 1];
    }
  }

  /** The animation script is a walk of the table from "new" to "terminated". */
  lemma SequenceIsWalk()
    ensures IsPath(Sequence) && Sequence[0] == New && Sequence[|Sequence| - 1] == Terminated
  {
    ListedWalkIsPath(Sequence);
  }

  /** Every state is reachable from "new": the animation script reaches each of
      them, and the part of it up to that state is a witness walk. */
  lemma ReachableFromNew(s: ThreadState) returns (p: seq<ThreadState>)
    ensures IsPath(p) && p[0] == New && p[|p| - 1] == s
  {
    var n := match s
      case New => 1
      case Ready => 2
      case Running => 3
      case Waiting => 4
      case Terminated => 7;
    SequenceIsWalk();
    PrefixIsPath(Sequence, n);
    p := Sequence[..n];
  }

  /** The page's state: the highlighted state, whether the animation runs, and
      the animation's position `index` in `Sequence` (a local of the effect,
      restarted at 0 every time the animation starts). */
  class LifecycleView {
    var activeState: ThreadState
    var isAnimating: bool
    var index: nat

    ghost predicate Valid()
      reads this
    {
      isAnimating ==> index < |Sequence|
    }

    constructor ()
      ensures Valid() && activeState == New && !isAnimating
    {
      activeState := New;
      isAnimating := false;
      index := 0;
    }

    /** The Animate / Pause button; starting the animation starts its script over. */
    method ToggleAnimation()
      requires Valid()
      modifies this
      ensures Valid() && isAnimating == !old(isAnimating) && activeState == old(activeState)
      ensures isAnimating ==> index == 0
    {
      isAnimating := !isAnimating;
      if isAnimating {
        index := 0;
      }
    }

    /** One firing of the animation interval: show the next state of the script,
        and stop after the last one. Nothing happens while the animation is off. */
    method Tick()
      requires Valid()
      modifies this
      ensures Valid()
      ensures !old(isAnimating) ==> activeState == old(activeState) && !isAnimating && index == old(index)
      ensures old(isAnimating) ==>
        && activeState == Sequence[old(index)]
        && index == old(index) + 1
        && (isAnimating <==> index < |Sequence|)
    {
      if !isAnimating {
        return;
      }
      activeState := Sequence[index];
      index := index + 1;
      if index >= |Sequence| {
        isAnimating := false;
      }
    }

    /** The Reset button. */
    method Reset()
      requires Valid()
      modifies this
      ensures Valid() && activeState == New && !isAnimating
    {
      isAnimating := false;
      activeState := New;
    }

    /** Clicking one of the five state nodes of the diagram. */
    method Select(s: ThreadState)
      requires Valid()
      modifies this
      ensures Valid() && activeState == s && isAnimating == old(isAnimating) && index == old(index)
    {
      activeState := s;
    }

    /** Clicking the `k`-th transition button shown for the active state. */
    method FollowTransition(k: nat)
      requires Valid()
      requires k < |Successors(activeState)|
      modifies this
      ensures Valid() && Edge(old(activeState), activeState)
      ensures activeState == Successors(old(activeState))[k]
      ensures isAnimating == old(isAnimating) && index == old(index)
    {
      activeState := Successors(activeState)[k];
    }
  }

  /** Starting the animation and letting it run shows the script in order, one
      state per tick, and stops after "terminated": `shown` is the state
      highlighted after each tick. */
  method PlayWholeAnimation(view: LifecycleView) returns (shown: seq<ThreadState>)
    requires view.Valid() && !view.isAnimating
    modifies view
    ensures shown == Sequence
    ensures view.Valid() && !view.isAnimating && view.activeState == Terminated
  {
    view.ToggleAnimation();
    shown := [];
    while view.isAnimating
      invariant view.Valid()
      invariant view.isAnimating ==> |shown| == view.index
      invariant !view.isAnimating ==> |shown| == |Sequence|
      invariant shown == Sequence[..|shown|]
      invariant |shown| > 0 ==> view.activeState == shown[|shown| - 1]
      decreases |Sequence| - |shown|
    {
      view.Tick();
      shown := shown + [view.activeState];
    }
  }
}
