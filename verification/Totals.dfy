/** Sums of a weight over a sequence, used for every byte and permit account of the model. */
module Totals {

  function Total<T>(xs: seq<T>, weight: T -> nat): nat
  {
    if xs == [] then 0 else Total(xs[..|xs| - 1], weight) + weight(xs[|xs| - 1])
  }

  lemma TotalAppend<T>(xs: seq<T>, x: T, weight: T -> nat)
    ensures Total(xs + [x], weight) == Total(xs, weight) + weight(x)
  {
    assert (xs + [x])[..|xs|] == xs;
  }

  lemma {:induction false} TotalConcat<T>(xs: seq<T>, ys: seq<T>, weight: T -> nat)
    ensures Total(xs + ys, weight) == Total(xs, weight) + Total(ys, weight)
  {
    if ys == [] {
      assert xs + ys == xs;
    } else {
      var init, last := ys[..|ys| - 1], ys[|ys| - 1];
      TotalConcat(xs, init, weight);
      assert (xs + ys)[..|xs + ys| - 1] == xs + init;
    }
  }

  lemma TotalHead<T>(xs: seq<T>, weight: T -> nat)
    requires xs != []
    ensures Total(xs, weight) == weight(xs[0]) + Total(xs[1..], weight)
  {
    assert xs == [xs[0]] + xs[1..];
    TotalConcat([xs[0]], xs[1..], weight);
    TotalAppend([], xs[0], weight);
    assert [] + [xs[0]] == [xs[0]];
  }

  /** Changing one element changes the total by the difference of the two weights. */
  lemma {:induction false} TotalUpdate<T>(xs: seq<T>, i: nat, x: T, weight: T -> nat)
    requires i < |xs|
    ensures Total(xs[i := x], weight) + weight(xs[i]) == Total(xs, weight) + weight(x)
  {
    var n := |xs| - 1;
    if i == n {
      assert xs[i := x][..n] == xs[..n];
    } else {
      TotalUpdate(xs[..n], i, x, weight);
      assert xs[i := x][..n] == xs[..n][i := x];
    }
  }

  /** One element never outweighs the total. */
  lemma {:induction false} TotalBounds<T>(xs: seq<T>, i: nat, weight: T -> nat)
    requires i < |xs|
    ensures weight(xs[i]) <= Total(xs, weight)
  {
    var n := |xs| - 1;
    if i != n {
      TotalBounds(xs[..n], i, weight);
    }
  }
}
