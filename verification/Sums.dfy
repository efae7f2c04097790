/** Sums of a weight over a sequence; a count is the sum of a weight that is 0 or 1. */
module Sums {

  function SumBy<T>(xs: seq<T>, weight: T -> nat): nat {
    if xs == [] then 0 else SumBy(xs[..|xs| - 1], weight) + weight(xs[|xs| - 1])
  }

  /** Adding an element at the end adds its weight. */
  lemma SumAppend<T>(xs: seq<T>, x: T, weight: T -> nat)
    ensures SumBy(xs + [x], weight) == SumBy(xs, weight) + weight(x)
  {
    assert (xs + [x])[..|xs|] == xs;
  }

  /** Replacing one element exchanges its weight and leaves the rest of the sum. */
  lemma {:induction false} SumUpdate<T>(xs: seq<T>, i: nat, x: T, weight: T -> nat)
    requires i < |xs|
    ensures SumBy(xs[i := x], weight) + weight(xs[i]) == SumBy(xs, weight) + weight(x)
  {
    var last := |xs| - 1;
    if i == last {
      assert xs[i := x][..last] == xs[..last];
    } else {
      assert xs[i := x][..last] == xs[..last][i := x];
      SumUpdate(xs[..last], i, x, weight);
    }
  }

  lemma {:induction false} SumMonotone<T>(xs: seq<T>, small: T -> nat, large: T -> nat)
    requires forall x :: x in xs ==> small(x) <= large(x)
    ensures SumBy(xs, small) <= SumBy(xs, large)
  {
    if xs != [] {
      SumMonotone(xs[..|xs| - 1], small, large);
    }
  }

  lemma {:induction false} SumSplit<T>(xs: seq<T>, whole: T -> nat, left: T -> nat, right: T -> nat)
    requires forall x :: x in xs ==> whole(x) == left(x) + right(x)
    ensures SumBy(xs, whole) == SumBy(xs, left) + SumBy(xs, right)
  {
    if xs != [] {
      SumSplit(xs[..|xs| - 1], whole, left, right);
    }
  }

  lemma {:induction false} SumZero<T>(xs: seq<T>, weight: T -> nat)
    requires forall x :: x in xs ==> weight(x) == 0
    ensures SumBy(xs, weight) == 0
  {
    if xs != [] {
      SumZero(xs[..|xs| - 1], weight);
    }
  }
}
