/** The five thread states shared by every page of the visualizer
    (the `ThreadState` union type of ThreadNode.tsx). */
module ThreadStates {

  datatype ThreadState = New | Ready | Running | Waiting | Terminated

  /** The display order `["new", "ready", "running", "waiting", "terminated"]`
      that the landing page indexes into. */
  const Order: seq<ThreadState> := [New, Ready, Running, Waiting, Terminated]

  /** `states.indexOf(s)`: the position of `s` in `Order`. */
  function IndexOf(s: ThreadState): (i: nat)
    ensures i < |Order| && Order[i] == s
    ensures forall j :: 0 <= j < |Order| && Order[j] == s ==> j == i
  {
    match s
    case New => 0
    case Ready => 1
    case Running => 2
    case Waiting => 3
    case Terminated => 4
  }
}
