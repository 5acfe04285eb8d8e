/**
 * The indices 0..n-1 that satisfy a condition, in increasing order: what
 * `numpy.where(mask)[0]` returns, and what a `for (i = 0; i < n; i++)` loop
 * that pushes the indices passing a test produces.
 */
module Indices {

  function Where(n: nat, p: nat -> bool): (r: seq<nat>)
    ensures forall i: nat :: i in r <==> i < n && p(i)
    ensures forall k :: 0 <= k < |r| ==> r[k] < n
    ensures |r| <= n
  {
    if n == 0 then [] else Where(n - 1, p) + (if p(n - 1) then [n - 1] else [])
  }

  /** A strictly increasing sequence of indices. */
  ghost predicate Increasing(s: seq<int>) {
    forall a, b :: 0 <= a < b < |s| ==> s[a] < s[b]
  }

  /** The selected indices come out in increasing order. */
  lemma {:induction false} WhereIncreasing(n: nat, p: nat -> bool)
    ensures Increasing(Where(n, p))
  {
    if n > 0 {
      WhereIncreasing(n - 1, p);
    }
  }

  /** Two conditions that agree below n select the same indices. */
  lemma {:induction false} WhereAgree(n: nat, p: nat -> bool, q: nat -> bool)
    requires forall i: nat :: i < n ==> p(i) == q(i)
    ensures Where(n, p) == Where(n, q)
  {
    if n > 0 {
      WhereAgree(n - 1, p, q);
    }
  }

  /** A condition and its negation split 0..n-1 between them: nothing is lost or counted twice. */
  lemma {:induction false} WhereSplit(n: nat, p: nat -> bool, q: nat -> bool)
    requires forall i: nat :: q(i) == !p(i)
    ensures |Where(n, p)| + |Where(n, q)| == n
  {
    if n > 0 {
      WhereSplit(n - 1, p, q);
    }
  }

  /** The set of indices below n that pass. */
  ghost function Passing(n: nat, p: nat -> bool): set<nat> {
    set i: nat | i < n && p(i)
  }

  lemma PassingStep(n: nat, p: nat -> bool)
    requires n > 0
    ensures |Passing(n, p)| == |Passing(n - 1, p)| + (if p(n - 1) then 1 else 0)
  {
    var before := Passing(n - 1, p);
    assert n - 1 !in before;
    if p(n - 1) {
      assert Passing(n, p) == before + {n - 1};
    } else {
      assert Passing(n, p) == before;
    }
  }

  lemma WhereStep(n: nat, p: nat -> bool)
    requires n > 0
    ensures |Where(n, p)| == |Where(n - 1, p)| + (if p(n - 1) then 1 else 0)
  {
  }

  /** The number of selected indices is the number of indices below n that pass. */
  lemma {:induction false} WhereCount(n: nat, p: nat -> bool)
    ensures |Where(n, p)| == |Passing(n, p)|
  {
    if n == 0 {
      assert Passing(0, p) == {};
    } else {
      WhereStep(n, p);
      WhereCount(n - 1, p);
      PassingStep(n, p);
    }
  }
}
