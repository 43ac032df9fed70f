/** Induction over the states of an execution. */
module Induction {

  /** What one step keeps, every later state has. */
  lemma {:induction false} Kept(p: nat -> bool, i: nat, j: nat)
    requires i <= j && p(i) && forall k: nat | i <= k < j && p(k) :: p(k + 1)
    ensures p(j)
    decreases j
  {
    if i < j {
      Kept(p, i, j - 1);
      assert p(j - 1 + 1);
    }
  }
}
