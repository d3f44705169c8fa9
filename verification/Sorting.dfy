/** Python's `sorted(range(n), key=...)`: positions in ascending key order, ties by position. */
module Sorting {

  /** Position a stands before position b in the stable order of `keys`. */
  predicate Precedes(keys: seq<real>, a: nat, b: nat)
    requires a < |keys| && b < |keys|
  {
    keys[a] < keys[b] || (keys[a] == keys[b] && a < b)
  }

  predicate Within(order: seq<nat>, n: nat) {
    forall i :: 0 <= i < |order| ==> order[i] < n
  }

  ghost predicate Ascending(order: seq<nat>, keys: seq<real>)
    requires Within(order, |keys|)
  {
    forall i, j :: 0 <= i < j < |order| ==> Precedes(keys, order[i], order[j])
  }

  /** `order` lists every position of `keys` once, in stable order. */
  ghost predicate IsOrder(order: seq<nat>, keys: seq<real>) {
    && Within(order, |keys|)
    && Ascending(order, keys)
    && forall p: nat :: p < |keys| ==> p in order
  }

  function InsertPosition(order: seq<nat>, keys: seq<real>, p: nat): (r: seq<nat>)
    requires p < |keys| && Within(order, |keys|)
    ensures Within(r, |keys|)
    ensures forall q: nat :: q in r <==> q == p || q in order
  {
    if order != [] && Precedes(keys, p, order[|order| - 1])
    then
      var r := InsertPosition(order[..|order| - 1], keys, p) + [order[|order| - 1]];
      assert order == order[..|order| - 1] + [order[|order| - 1]];
      r
    else order + [p]
  }

  lemma {:induction false} InsertPositionSorts(order: seq<nat>, keys: seq<real>, p: nat)
    requires p < |keys| && p !in order && Within(order, |keys|) && Ascending(order, keys)
    ensures Ascending(InsertPosition(order, keys, p), keys)
  {
    if order != [] {
      var last := order[|order| - 1];
      var front := order[..|order| - 1];
      if Precedes(keys, p, last) {
        InsertPositionSorts(front, keys, p);
        var s := InsertPosition(front, keys, p);
        forall i | 0 <= i < |s| ensures Precedes(keys, s[i], last) {
          assert s[i] in s;
          if s[i] != p {
            var j :| 0 <= j < |front| && front[j] == s[i];
            assert Precedes(keys, order[j], order[|order| - 1]);
          }
        }
      } else {
        assert last in order;
        forall i | 0 <= i < |order| ensures Precedes(keys, order[i], p) {
          assert i == |order| - 1 || Precedes(keys, order[i], last);
        }
      }
    }
  }

  function OrderUpTo(keys: seq<real>, n: nat): (r: seq<nat>)
    requires n <= |keys|
    ensures Within(r, |keys|)
    ensures forall q: nat :: q in r <==> q < n
  {
    if n == 0 then [] else InsertPosition(OrderUpTo(keys, n - 1), keys, n - 1)
  }

  function Order(keys: seq<real>): seq<nat> {
    OrderUpTo(keys, |keys|)
  }

  lemma {:induction false} OrderUpToSorts(keys: seq<real>, n: nat)
    requires n <= |keys|
    ensures Ascending(OrderUpTo(keys, n), keys)
  {
    if n > 0 {
      OrderUpToSorts(keys, n - 1);
      InsertPositionSorts(OrderUpTo(keys, n - 1), keys, n - 1);
    }
  }

  /** Sorting gives the stable order. */
  lemma OrderIsStable(keys: seq<real>)
    ensures IsOrder(Order(keys), keys)
  {
    OrderUpToSorts(keys, |keys|);
  }
}
