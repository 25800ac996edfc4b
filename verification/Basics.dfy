/** Facts about numbers and collections that more than one component needs. */
module Basics {
  function Pow2(n: nat): (r: nat)
    ensures r >= 1
  {
    if n == 0 then 1 else 2 * Pow2(n - 1)
  }

  lemma {:induction false} Pow2Grows(m: nat, n: nat)
    requires m <= n
    ensures Pow2(m) <= Pow2(n)
    decreases n
  {
    if m < n {
      Pow2Grows(m, n - 1);
    }
  }

  lemma {:induction false} SubsetSize<T>(a: set<T>, b: set<T>)
    requires a <= b
    ensures |a| <= |b|
  {
    if a != {} {
      var x :| x in a;
      SubsetSize(a - {x}, b - {x});
    }
  }

  lemma Assoc<T>(a: seq<T>, b: seq<T>, c: seq<T>)
    ensures a + (b + c) == a + b + c
  {
  }

  /** The elements `p` does not hold of, in order. */
  function Rejecting<T>(p: T -> bool, xs: seq<T>): (r: seq<T>)
    ensures |r| <= |xs|
  {
    if xs == [] then []
    else Rejecting(p, xs[..|xs| - 1]) + (if p(xs[|xs| - 1]) then [] else [xs[|xs| - 1]])
  }

  lemma {:induction false} RejectingNone<T>(p: T -> bool, xs: seq<T>)
    requires forall k :: 0 <= k < |xs| ==> !p(xs[k])
    ensures Rejecting(p, xs) == xs
  {
    if xs != [] {
      RejectingNone(p, xs[..|xs| - 1]);
      assert xs == xs[..|xs| - 1] + [xs[|xs| - 1]];
    }
  }

  lemma {:induction false} RejectingConcat<T>(p: T -> bool, a: seq<T>, b: seq<T>)
    ensures Rejecting(p, a + b) == Rejecting(p, a) + Rejecting(p, b)
    decreases |b|
  {
    if b == [] {
      assert a + b == a;
    } else {
      assert (a + b)[..|a + b| - 1] == a + b[..|b| - 1];
      RejectingConcat(p, a, b[..|b| - 1]);
    }
  }
}
