/** Machines over event traces, one step per event. */
module Traces {

  /** The state after the first `n` events. */
  function Fold<S, E>(step: (S, E) -> S, start: S, trace: seq<E>, n: nat): S
    requires n <= |trace|
  {
    if n == 0 then start else step(Fold(step, start, trace, n - 1), trace[n - 1])
  }

  /** Whatever holds at the start and is kept by every step holds along every run. */
  lemma {:induction false} FoldKeeps<S(!new), E>(step: (S, E) -> S, start: S, trace: seq<E>, n: nat,
                                                 inv: (nat, S) -> bool)
    requires n <= |trace| && inv(0, start)
    requires forall k: nat, s: S :: k < n && inv(k, s) ==> inv(k + 1, step(s, trace[k]))
    ensures inv(n, Fold(step, start, trace, n))
  {
    if n > 0 {
      FoldKeeps(step, start, trace, n - 1, inv);
      assert inv(n - 1 + 1, step(Fold(step, start, trace, n - 1), trace[n - 1]));
    }
  }
}
