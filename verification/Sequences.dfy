/** Facts about sequences that the solver is told one at a time. */
module Sequences {

  lemma Assoc<T>(x: seq<T>, y: seq<T>, z: seq<T>)
    ensures (x + y) + z == x + (y + z)
  {
  }

  lemma NoTail<T>(x: seq<T>)
    ensures x + [] == x
  {
  }

  lemma SliceExtends<T>(xs: seq<T>, k: nat, n: nat)
    requires k + n <= |xs|
    ensures xs[..k + n] == xs[..k] + xs[k..k + n]
  {
  }

  predicate Distinct(ids: seq<nat>) {
    forall i, j | 0 <= i < j < |ids| :: ids[i] != ids[j]
  }

  predicate Within(ids: seq<nat>, n: nat) {
    forall i | 0 <= i < |ids| :: ids[i] < n
  }
}
