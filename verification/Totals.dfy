/** What the members of a list come to together. */
module Totals {
  function Total<T>(xs: seq<T>, cost: T -> nat): nat {
    if xs == [] then 0 else Total(xs[..|xs| - 1], cost) + cost(xs[|xs| - 1])
  }

  /** One of them changed. */
  lemma {:induction false} TotalAfter<T>(xs: seq<T>, cost: T -> nat, i: nat, x: T)
    requires i < |xs|
    ensures Total(xs[i := x], cost) == Total(xs, cost) - cost(xs[i]) + cost(x)
    ensures Total(xs, cost) >= cost(xs[i])
  {
    var last := |xs| - 1;
    if i == last {
      assert xs[i := x][..last] == xs[..last];
    } else {
      assert xs[i := x][..last] == xs[..last][i := x];
      TotalAfter(xs[..last], cost, i, x);
    }
  }
}
