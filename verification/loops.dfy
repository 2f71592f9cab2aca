/**
 * The counted loops of the engine — `for` over a list whose length the body
 * does not change — as the repeated application of one round to a state.
 */
module Loops {

  /** Rounds `k`, `k + 1`, ..., `n - 1` of `step`, each applied to the state the previous one left. */
  function Iterate<S>(s: S, k: nat, n: nat, step: (S, nat) -> S): S
    decreases n - k
  {
    if k >= n then s else Iterate(step(s, k), k + 1, n, step)
  }

  /**
   * A loop invariant: when `P` holds before round `k` and every round `j`
   * takes `P` at `j` to `P` at `j + 1`, it holds when the loop ends.
   */
  lemma {:induction false} IterateKeeps<S>(s: S, k: nat, n: nat, step: (S, nat) -> S, P: (S, nat) -> bool)
    requires k <= n && P(s, k)
    requires forall x, j :: k <= j < n && P(x, j) ==> P(step(x, j), j + 1)
    ensures P(Iterate(s, k, n, step), n)
    decreases n - k
  {
    if k < n {
      IterateKeeps(step(s, k), k + 1, n, step, P);
    }
  }

  /** One round more is the last round applied to what the loop left. */
  lemma {:induction false} IterateLast<S>(s: S, k: nat, n: nat, step: (S, nat) -> S)
    requires k <= n
    ensures Iterate(s, k, n + 1, step) == step(Iterate(s, k, n, step), n)
    decreases n - k
  {
    if k < n {
      IterateLast(step(s, k), k + 1, n, step);
    }
  }

}
