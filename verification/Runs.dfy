/** Induction over the states of a run. */
module Runs {

  /** What holds in state `m`, if `p` says so, holds in the next. */
  ghost predicate Carries(p: nat -> bool, m: nat) { p(m) ==> p(m + 1) }

  /** What holds in state `i` and is carried over every step holds in every later state. */
  lemma {:induction false} CarriedOver(p: nat -> bool, i: nat, k: nat)
    requires i <= k && p(i) && forall m :: i <= m < k ==> Carries(p, m)
    ensures p(k)
    decreases k
  {
    if i < k {
      CarriedOver(p, i, k - 1);
      assert Carries(p, k - 1);
    }
  }
}
