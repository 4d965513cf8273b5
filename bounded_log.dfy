/** The bounded activity log used by the simulator and synchronization pages:
    `setLogs(prev => [...prev.slice(-(cap - 1)), message])`. The capacity is at
    least 2: with a capacity of 1, `slice(-0)` is `slice(0)` and keeps the whole
    log rather than none of it. The pages use 20 and 10. */
module BoundedLog {

  /** Appends `msg` after keeping only the newest `cap - 1` entries of `logs`. */
  function Append<T>(logs: seq<T>, cap: nat, msg: T): (r: seq<T>)
    requires cap >= 2
    ensures |r| == if |logs| + 1 <= cap then |logs| + 1 else cap
    ensures r == (logs + [msg])[|logs| + 1 - |r|..]
    ensures r[|r| - 1] == msg
  {
    var keep := if |logs| <= cap - 1 then |logs| else cap - 1;
    logs[|logs| - keep..] + [msg]
  }

  /** Appends several messages one after the other, as consecutive `addLog` calls do. */
  function AppendAll<T>(logs: seq<T>, cap: nat, msgs: seq<T>): (r: seq<T>)
    requires cap >= 2
    decreases |msgs|
  {
    if msgs == [] then logs else AppendAll(Append(logs, cap, msgs[0]), cap, msgs[1..])
  }

  /** The newest `cap` entries of `s`, oldest first. */
  function Newest<T>(s: seq<T>, cap: nat): seq<T>
  {
    if |s| <= cap then s else s[|s| - cap..]
  }

  /** However many messages arrive, the log never exceeds its capacity and always
      holds exactly the newest entries of everything appended, oldest first. */
  lemma {:induction false} AppendAllKeepsNewest<T>(logs: seq<T>, cap: nat, msgs: seq<T>)
    requires cap >= 2 && |logs| <= cap
    ensures var r := AppendAll(logs, cap, msgs);
      && |r| == (if |logs| + |msgs| <= cap then |logs| + |msgs| else cap)
      && r == (logs + msgs)[|logs| + |msgs| - |r|..]
  {
    AppendAllIsNewest(logs, cap, msgs);
  }

  lemma {:induction false} AppendAllIsNewest<T>(logs: seq<T>, cap: nat, msgs: seq<T>)
    requires cap >= 2 && |logs| <= cap
    ensures AppendAll(logs, cap, msgs) == Newest(logs + msgs, cap)
    decreases |msgs|
  {
    if msgs == [] {
      assert logs + msgs == logs;
    } else {
      var m := msgs[0];
      var rest := msgs[1..];
      AppendAllIsNewest(Append(logs, cap, m), cap, rest);
      AppendIsNewest(logs, cap, m);
      NewestTwice(logs + [m], rest, cap);
      ConsSplit(logs, msgs);
    }
  }

  lemma ConsSplit<T>(logs: seq<T>, msgs: seq<T>)
    requires msgs != []
    ensures (logs + [msgs[0]]) + msgs[1..] == logs + msgs
  {
    assert msgs == [msgs[0]] + msgs[1..];
  }

  /** Appending one message keeps the newest `cap` entries. */
  lemma AppendIsNewest<T>(logs: seq<T>, cap: nat, msg: T)
    requires cap >= 2 && |logs| <= cap
    ensures Append(logs, cap, msg) == Newest(logs + [msg], cap)
  {
  }

  /** Trimming early and trimming again at the end is trimming once. */
  lemma NewestTwice<T>(a: seq<T>, b: seq<T>, cap: nat)
    ensures Newest(Newest(a, cap) + b, cap) == Newest(a + b, cap)
  {
    if |a| > cap {
      var t := a[|a| - cap..];
      assert (t + b) == (a + b)[|a| - cap..];
    }
  }
}
