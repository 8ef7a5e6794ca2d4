/**
 * The shape of every listing query: the rows of a table that match a filter,
 * ordered from the most recently inserted id down to the oldest. Each id
 * carries a weight, the number of times the query returns it: a filter that
 * crosses a join yields one result row per matching joined row, and for a
 * plain filter the weight is 0 or 1.
 */
module Listing {

  /** `k` copies of `x`. */
  function Copies(x: nat, k: nat): (r: seq<nat>)
    ensures |r| == k
    ensures forall i :: 0 <= i < |r| ==> r[i] == x
    ensures multiset(r)[x] == k
    ensures forall y :: y != x ==> multiset(r)[y] == 0
  {
    if k == 0 then [] else [x] + Copies(x, k - 1)
  }

  /** How many times `id` occurs in a listing of the ids below `n` weighted by `weights`. */
  function Occurrences(weights: map<nat, nat>, n: nat, id: nat): nat
  {
    if id < n && id in weights then weights[id] else 0
  }

  /**
   * The ids below `n` that `weights` holds, largest id first, each repeated
   * as often as its weight says.
   */
  function Descending(weights: map<nat, nat>, n: nat): (r: seq<nat>)
    ensures forall id: nat :: multiset(r)[id] == Occurrences(weights, n, id)
    ensures forall i, j :: 0 <= i < j < |r| ==> r[i] >= r[j]
  {
    if n == 0 then []
    else if n - 1 !in weights then Descending(weights, n - 1)
    else
      var rest := Descending(weights, n - 1);
      var top := Copies(n - 1, weights[n - 1]);
      var r := top + rest;
      PrependLarger(weights, n - 1, top, rest, r);
      PrependCounts(weights, n - 1, top, rest, r);
      r
  }

  /** The multiplicities of copies of the id `x` placed before the listing of the ids below `x`. */
  lemma PrependCounts(weights: map<nat, nat>, x: nat, top: seq<nat>, rest: seq<nat>, r: seq<nat>)
    requires x in weights && top == Copies(x, weights[x]) && r == top + rest
    requires forall id: nat :: multiset(rest)[id] == Occurrences(weights, x, id)
    ensures forall id: nat :: multiset(r)[id] == Occurrences(weights, x + 1, id)
  {
    forall id: nat
      ensures multiset(r)[id] == Occurrences(weights, x + 1, id)
    {
      assert multiset(r)[id] == multiset(top)[id] + multiset(rest)[id];
    }
  }

  /** Copies of `x` followed by a non-increasing run of smaller ids is non-increasing. */
  lemma PrependLarger(weights: map<nat, nat>, x: nat, top: seq<nat>, rest: seq<nat>, r: seq<nat>)
    requires r == top + rest
    requires forall i :: 0 <= i < |top| ==> top[i] == x
    requires forall id: nat :: multiset(rest)[id] == Occurrences(weights, x, id)
    requires forall i, j :: 0 <= i < j < |rest| ==> rest[i] >= rest[j]
    ensures forall i, j :: 0 <= i < j < |r| ==> r[i] >= r[j]
  {
    forall i, j | 0 <= i < j < |r|
      ensures r[i] >= r[j]
    {
      if j < |top| {
        assert r[i] == x && r[j] == x;
      } else if i < |top| {
        assert r[i] == x && r[j] == rest[j - |top|];
        assert rest[j - |top|] in multiset(rest);
      } else {
        assert r[i] == rest[i - |top|] && r[j] == rest[j - |top|];
      }
    }
  }

  /** Every entry of a listing is an id below the bound with a positive weight. */
  lemma DescendingMembers(weights: map<nat, nat>, n: nat)
    ensures forall id: nat :: id in Descending(weights, n) <==> id < n && id in weights && weights[id] > 0
  {
    var r := Descending(weights, n);
    forall id: nat
      ensures id in r <==> id < n && id in weights && weights[id] > 0
    {
      assert id in r <==> id in multiset(r);
    }
  }

  /** When every weight is at most one, a listing holds each id at most once. */
  lemma NoRepeats(weights: map<nat, nat>, n: nat)
    requires forall id :: id in weights ==> weights[id] <= 1
    ensures forall i, j :: 0 <= i < j < |Descending(weights, n)| ==>
              Descending(weights, n)[i] > Descending(weights, n)[j]
  {
    var r := Descending(weights, n);
    forall i, j | 0 <= i < j < |r|
      ensures r[i] > r[j]
    {
      if r[i] == r[j] {
        TwoPositions(r, i, j);
        assert false;
      }
    }
  }

  /** A value found at two positions of a sequence occurs in it at least twice. */
  lemma TwoPositions(r: seq<nat>, i: nat, j: nat)
    requires i < j < |r| && r[i] == r[j]
    ensures multiset(r)[r[i]] >= 2
  {
    var x := r[i];
    assert r == r[..j] + r[j..];
    assert x in r[..j] by { assert r[..j][i] == x; }
    assert x in r[j..] by { assert r[j..][0] == x; }
    assert multiset(r)[x] == multiset(r[..j])[x] + multiset(r[j..])[x];
  }
}
