/** The indices of a list in the order a stable ascending sort by key visits them. */
module Sorting {

  predicate Before(keys: seq<int>, i: nat, j: nat)
    requires i < |keys| && j < |keys|
  {
    keys[i] < keys[j] || (keys[i] == keys[j] && i < j)
  }

  // Every entry of order is one of the first n indices, and they come in strictly ascending order.
  ghost predicate Ascending(keys: seq<int>, order: seq<nat>, n: nat)
    requires n <= |keys|
  {
    && (forall a :: 0 <= a < |order| ==> order[a] < n)
    && (forall a, b :: 0 <= a < b < |order| ==> order[a] < n && order[b] < n && Before(keys, order[a], order[b]))
  }

  ghost predicate IsStableOrder(keys: seq<int>, order: seq<nat>) {
    && |order| == |keys|
    && Ascending(keys, order, |keys|)
    && (forall i: nat :: i < |keys| ==> i in order)
  }

  lemma StableOrderIsDistinct(keys: seq<int>, order: seq<nat>, a: nat, b: nat)
    requires Ascending(keys, order, |keys|)
    requires a < |order| && b < |order| && a != b
    ensures order[a] != order[b]
  {
    if a < b {
      assert Before(keys, order[a], order[b]);
    } else {
      assert Before(keys, order[b], order[a]);
    }
  }

  lemma InsertKeepsAscending(keys: seq<int>, order: seq<nat>, p: nat, n: nat)
    requires n < |keys| && Ascending(keys, order, n) && p <= |order|
    requires p > 0 ==> keys[order[p - 1]] <= keys[n]
    requires forall b :: p <= b < |order| ==> keys[n] < keys[order[b]]
    ensures Ascending(keys, order[..p] + [n] + order[p..], n + 1)
  {
    var longer := order[..p] + [n] + order[p..];
    forall a, b | 0 <= a < b < |longer|
      ensures longer[a] < n + 1 && longer[b] < n + 1 && Before(keys, longer[a], longer[b])
    {
      if b < p {
        assert Before(keys, order[a], order[b]);
      } else if b == p {
        assert a == p - 1 || Before(keys, order[a], order[p - 1]);
      } else if a == p {
        assert longer[b] == order[b - 1];
      } else {
        assert longer[b] == order[b - 1];
        var a' := if a < p then a else a - 1;
        assert longer[a] == order[a'] && Before(keys, order[a'], order[b - 1]);
      }
    }
  }

  lemma InsertKeepsMembers(order: seq<nat>, p: nat, n: nat)
    requires p <= |order|
    ensures forall i: nat :: i in order || i == n ==> i in order[..p] + [n] + order[p..]
  {
    var longer := order[..p] + [n] + order[p..];
    assert longer[p] == n;
    forall i: nat | i in order
      ensures i in longer
    {
      var k :| 0 <= k < |order| && order[k] == i;
      assert longer[if k < p then k else k + 1] == i;
    }
  }

  method StableOrder(keys: seq<int>) returns (order: seq<nat>)
    ensures IsStableOrder(keys, order)
  {
    order := [];
    for n := 0 to |keys|
      invariant |order| == n && Ascending(keys, order, n)
      invariant forall i: nat :: i < n ==> i in order
    {
      var p := |order|;
      while p > 0 && keys[n] < keys[order[p - 1]]
        invariant 0 <= p <= |order|
        invariant forall b :: p <= b < |order| ==> keys[n] < keys[order[b]]
      {
        p := p - 1;
      }
      InsertKeepsAscending(keys, order, p, n);
      InsertKeepsMembers(order, p, n);
      order := order[..p] + [n] + order[p..];
    }
  }
}
