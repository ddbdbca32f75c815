/** Counting the elements of a sequence that satisfy a predicate, one update at a time. */
module Counting {
  function Bit(b: bool): (n: nat) {
    if b then 1 else 0
  }

  ghost function Count<T>(xs: seq<T>, p: T -> bool): (n: nat)
    ensures n <= |xs|
  {
    if xs == [] then 0 else Count(xs[..|xs| - 1], p) + Bit(p(xs[|xs| - 1]))
  }

  lemma CountAppend<T>(xs: seq<T>, x: T, p: T -> bool)
    ensures Count(xs + [x], p) == Count(xs, p) + Bit(p(x))
  {
    assert (xs + [x])[..|xs|] == xs;
  }

  /** Replacing one element changes the count by exactly that element's contribution. */
  lemma {:induction false} CountUpdate<T>(xs: seq<T>, i: nat, x: T, p: T -> bool)
    requires i < |xs|
    ensures Count(xs[i := x], p) == Count(xs, p) - Bit(p(xs[i])) + Bit(p(x))
  {
    var last := |xs| - 1;
    if i == last {
      assert xs[i := x][..last] == xs[..last];
    } else {
      CountUpdate(xs[..last], i, x, p);
      assert xs[i := x][..last] == xs[..last][i := x];
    }
  }

  lemma {:induction false} CountPositive<T>(xs: seq<T>, i: nat, p: T -> bool)
    requires i < |xs| && p(xs[i])
    ensures Count(xs, p) > 0
  {
    if i < |xs| - 1 {
      CountPositive(xs[..|xs| - 1], i, p);
    }
  }

  lemma {:induction false} CountZero<T>(xs: seq<T>, p: T -> bool)
    requires forall i :: 0 <= i < |xs| ==> !p(xs[i])
    ensures Count(xs, p) == 0
  {
    if xs != [] {
      CountZero(xs[..|xs| - 1], p);
    }
  }

  lemma {:induction false} CountMonotone<T>(xs: seq<T>, p: T -> bool, q: T -> bool)
    requires forall i :: 0 <= i < |xs| && p(xs[i]) ==> q(xs[i])
    ensures Count(xs, p) <= Count(xs, q)
  {
    if xs != [] {
      CountMonotone(xs[..|xs| - 1], p, q);
    }
  }
}
