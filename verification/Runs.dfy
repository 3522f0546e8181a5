/** Induction along a sequence of states. */
module Runs {

  ghost predicate Steps<S(!new)>(run: seq<S>, next: (S, S) -> bool, i: int)
    requires 0 <= i < |run| - 1
  {
    next(run[i], run[i + 1])
  }

  /** What every step keeps holds in every state. */
  lemma {:induction false} HoldsAlong<S(!new)>(run: seq<S>, next: (S, S) -> bool, holds: S -> bool, n: nat)
    requires n < |run| && holds(run[0])
    requires forall i :: 0 <= i < |run| - 1 ==> Steps(run, next, i)
    requires forall s, s' :: holds(s) && next(s, s') ==> holds(s')
    ensures holds(run[n])
  {
    if n > 0 {
      HoldsAlong(run, next, holds, n - 1);
      assert Steps(run, next, n - 1);
    }
  }

  ghost predicate KeptAt(holds: nat -> bool, i: nat) {
    holds(i) ==> holds(i + 1)
  }

  lemma {:induction false} HoldsUpTo(holds: nat -> bool, n: nat)
    requires holds(0) && forall i :: 0 <= i < n ==> KeptAt(holds, i)
    ensures holds(n)
  {
    if n > 0 {
      HoldsUpTo(holds, n - 1);
      assert KeptAt(holds, n - 1);
    }
  }
}
