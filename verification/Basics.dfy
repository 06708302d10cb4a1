/** Small vocabulary shared by every module: options, identifiers, distinctness and sums. */
module Basics {

  datatype Option<+T> = None | Some(value: T) {
    function GetOr(default: T): T {
      if Some? then value else default
    }
  }

  /** Row ids, user ids, event ids, seat ids and client-supplied keys are opaque strings. */
  type Id = string

  predicate Distinct<T(==)>(xs: seq<T>) {
    forall i, j :: 0 <= i < j < |xs| ==> xs[i] != xs[j]
  }

  /** The number of members of a sequence that satisfy a predicate. */
  function Count<T>(xs: seq<T>, p: T -> bool): (n: nat)
    ensures n <= |xs|
  {
    if xs == [] then 0 else Count(xs[..|xs| - 1], p) + if p(xs[|xs| - 1]) then 1 else 0
  }

  lemma CountSnoc<T>(xs: seq<T>, x: T, p: T -> bool)
    ensures Count(xs + [x], p) == Count(xs, p) + if p(x) then 1 else 0
  {
    assert (xs + [x])[..|xs|] == xs;
  }

  /** The sum of a measure over a sequence. */
  function Sum<T>(xs: seq<T>, f: T -> int): int {
    if xs == [] then 0 else Sum(xs[..|xs| - 1], f) + f(xs[|xs| - 1])
  }

  lemma SumSnoc<T>(xs: seq<T>, x: T, f: T -> int)
    ensures Sum(xs + [x], f) == Sum(xs, f) + f(x)
  {
    assert (xs + [x])[..|xs|] == xs;
  }

  /** Changing one member changes the sum by the change of that member. */
  lemma {:induction false} SumUpdate<T>(xs: seq<T>, i: nat, x: T, f: T -> int)
    requires i < |xs|
    ensures Sum(xs[i := x], f) == Sum(xs, f) - f(xs[i]) + f(x)
  {
    var n := |xs| - 1;
    if i == n {
      assert xs[i := x][..n] == xs[..n];
    } else {
      assert xs[i := x][..n] == xs[..n][i := x];
      SumUpdate(xs[..n], i, x, f);
    }
  }

  /** A duplicate-free listing of a set is as long as the set is large. */
  lemma {:induction false} DistinctCount<T>(ks: seq<T>, s: set<T>)
    requires Distinct(ks) && forall k :: k in ks <==> k in s
    ensures |ks| == |s|
  {
    if ks == [] {
      assert s == {};
    } else {
      var n := |ks| - 1;
      assert forall k :: k in ks[..n] <==> k in s - {ks[n]} by {
        forall k | k in ks[..n] ensures k in s - {ks[n]} {
          var i :| 0 <= i < n && ks[i] == k;
        }
      }
      DistinctCount(ks[..n], s - {ks[n]});
    }
  }
}
