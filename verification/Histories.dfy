/** Histories of a machine as its classes record them. */
module Histories {

  /** A history that began well and took only steps of the machine, told from its end. */
  ghost predicate Recorded<S, T>(states: seq<S>, steps: seq<T>, begins: S -> bool, takes: (S, T, S) -> bool)
    decreases |steps|
  {
    && |states| == |steps| + 1
    && if steps == [] then begins(states[0])
       else
         var n := |steps| - 1;
         && Recorded(states[..n + 1], steps[..n], begins, takes)
         && takes(states[n], steps[n], states[n + 1])
  }

  lemma Longer<S, T>(states: seq<S>, steps: seq<T>, st: T, s: S, begins: S -> bool, takes: (S, T, S) -> bool)
    requires Recorded(states, steps, begins, takes) && takes(states[|steps|], st, s)
    ensures Recorded(states + [s], steps + [st], begins, takes)
  {
    assert (states + [s])[..|states|] == states && (steps + [st])[..|steps|] == steps;
  }

  /** Step by step. */
  lemma {:induction false} IsRun<S, T>(states: seq<S>, steps: seq<T>, begins: S -> bool, takes: (S, T, S) -> bool)
    requires Recorded(states, steps, begins, takes)
    ensures |states| == |steps| + 1 && begins(states[0])
    ensures forall i | 0 <= i < |steps| :: takes(states[i], steps[i], states[i + 1])
    decreases |steps|
  {
    if steps != [] {
      var n := |steps| - 1;
      var front, done := states[..n + 1], steps[..n];
      IsRun(front, done, begins, takes);
      forall i | 0 <= i < |steps| ensures takes(states[i], steps[i], states[i + 1]) {
        if i < n {
          assert takes(front[i], done[i], front[i + 1]);
        }
      }
    }
  }

  /** What every step keeps from an instant on holds from then on. */
  lemma {:induction false} Persists<S>(states: seq<S>, holds: S -> bool, m: nat, n: nat)
    requires m <= n < |states| && holds(states[m])
    requires forall i | m <= i < n && holds(states[i]) :: holds(states[i + 1])
    ensures holds(states[n])
    decreases n
  {
    if m < n {
      Persists(states, holds, m, n - 1);
      assert holds(states[n - 1]);
      assert states[n - 1 + 1] == states[n];
    }
  }
}
