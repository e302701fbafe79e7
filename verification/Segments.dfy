/** Consecutive segments of given sizes, and who owns a position. */
module Segments {

  /** Where segment e starts: the sum of the sizes before it. */
  function Running(sizes: seq<nat>, e: nat): nat
    requires e <= |sizes|
  {
    if e == 0 then 0 else Running(sizes, e - 1) + sizes[e - 1]
  }

  lemma {:induction false} RunningStep(sizes: seq<nat>, e: nat)
    ensures Running(sizes, 0) == 0
    ensures e < |sizes| ==> Running(sizes, e + 1) == Running(sizes, e) + sizes[e]
  {}

  ghost predicate Owns(sizes: seq<nat>, e: nat, x: int) {
    e < |sizes| && Running(sizes, e) <= x < Running(sizes, e + 1)
  }

  lemma {:induction false} RunningMonotone(sizes: seq<nat>, d: nat, e: nat)
    requires d <= e <= |sizes|
    ensures Running(sizes, d) <= Running(sizes, e)
  {
    if d < e {
      RunningMonotone(sizes, d, e - 1);
    }
  }

  /** No position has two owners. */
  lemma OwnerUnique(sizes: seq<nat>, d: nat, e: nat, x: int)
    requires Owns(sizes, d, x) && Owns(sizes, e, x)
    ensures d == e
  {
    if d < e {
      RunningMonotone(sizes, d + 1, e);
    } else if e < d {
      RunningMonotone(sizes, e + 1, d);
    }
  }

  /** Every position below the total has an owner. */
  lemma {:induction false} OwnerExists(sizes: seq<nat>, n: nat, x: nat) returns (e: nat)
    requires n <= |sizes| && x < Running(sizes, n)
    ensures e < n && Owns(sizes, e, x)
  {
    if Running(sizes, n - 1) <= x {
      e := n - 1;
    } else {
      e := OwnerExists(sizes, n - 1, x);
    }
  }

  /** One more in segment k moves exactly the segments after it. */
  lemma {:induction false} RunningBump(a: seq<nat>, b: seq<nat>, k: nat, e: nat)
    requires k < |a| && b == a[k := a[k] + 1] && e <= |a|
    ensures Running(b, e) == Running(a, e) + if k < e then 1 else 0
  {
    if e > 0 {
      RunningBump(a, b, k, e - 1);
    }
  }

  lemma {:induction false} RunningZero(sizes: seq<nat>, e: nat)
    requires e <= |sizes| && forall k | 0 <= k < |sizes| :: sizes[k] == 0
    ensures Running(sizes, e) == 0
  {
    if e > 0 {
      RunningZero(sizes, e - 1);
    }
  }
}
