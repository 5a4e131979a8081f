/** The order the simulator releases its requests in: departure time, then input index. */
module ReleaseOrder {
  import opened Assignment

  datatype Departure = Departure(request: Request, departAt: real)

  /** Departure time, then input index. */
  predicate Before(reqs: seq<Departure>, a: nat, b: nat)
    requires a < |reqs| && b < |reqs|
  {
    reqs[a].departAt < reqs[b].departAt || (reqs[a].departAt == reqs[b].departAt && a < b)
  }

  ghost predicate Sorted(reqs: seq<Departure>, order: seq<nat>) {
    && (forall i :: 0 <= i < |order| ==> order[i] < |reqs|)
    && forall i, j :: 0 <= i < j < |order| ==> Before(reqs, order[i], order[j])
  }

  /** Every request once, in release order. */
  ghost predicate IsOrder(reqs: seq<Departure>, order: seq<nat>) {
    Sorted(reqs, order) && forall r: nat :: r in order <==> r < |reqs|
  }

  function Insert(reqs: seq<Departure>, order: seq<nat>, r: nat): (o: seq<nat>)
    requires r < |reqs| && forall i :: 0 <= i < |order| ==> order[i] < |reqs|
    ensures forall x: nat :: x in o <==> x in order || x == r
    ensures forall i :: 0 <= i < |o| ==> o[i] < |reqs|
  {
    if order == [] then [r]
    else
      var last := order[|order| - 1];
      if Before(reqs, last, r) then order + [r]
      else
        assert order == order[..|order| - 1] + [last];
        Insert(reqs, order[..|order| - 1], r) + [last]
  }

  lemma {:induction false} InsertSorted(reqs: seq<Departure>, order: seq<nat>, r: nat)
    requires r < |reqs| && r !in order && Sorted(reqs, order)
    ensures Sorted(reqs, Insert(reqs, order, r))
  {
    if |order| > 0 {
      var last := order[|order| - 1];
      if !Before(reqs, last, r) {
        var o := Insert(reqs, order[..|order| - 1], r);
        InsertSorted(reqs, order[..|order| - 1], r);
        forall i | 0 <= i < |o|
          ensures Before(reqs, o[i], last)
        {
          assert o[i] in order[..|order| - 1] || o[i] == r;
        }
      }
    }
  }

  method SortedRequestOrder(reqs: seq<Departure>) returns (order: seq<nat>)
    ensures IsOrder(reqs, order)
    ensures forall i, j :: 0 <= i < j < |order| ==>
      reqs[order[i]].departAt < reqs[order[j]].departAt
      || (reqs[order[i]].departAt == reqs[order[j]].departAt && order[i] < order[j])
  {
    order := [];
    for r := 0 to |reqs|
      invariant Sorted(reqs, order)
      invariant forall x: nat :: x in order <==> x < r
    {
      InsertSorted(reqs, order, r);
      order := Insert(reqs, order, r);
    }
  }

  /** Two release orders that agree up to n: the n-th of one is at n or later in the other. */
  lemma NotEarlier(reqs: seq<Departure>, a: seq<nat>, b: seq<nat>, n: nat)
    requires IsOrder(reqs, a) && IsOrder(reqs, b) && n < |a| && n <= |b| && a[..n] == b[..n]
    ensures n < |b| && (b[n] == a[n] || Before(reqs, b[n], a[n]))
  {
    assert forall i :: 0 <= i < n ==> a[..n][i] == a[i] && b[..n][i] == b[i];
    assert forall i :: 0 <= i < n ==> Before(reqs, a[i], a[n]);
    assert a[n] in a;
    assert a[n] in b;
    var j :| 0 <= j < |b| && b[j] == a[n];
    if j < n {
      assert false;
    }
  }

  lemma {:induction false} OrderBelow(reqs: seq<Departure>, a: seq<nat>, b: seq<nat>, n: nat)
    requires IsOrder(reqs, a) && IsOrder(reqs, b) && n <= |a| && n <= |b|
    ensures a[..n] == b[..n]
  {
    if n > 0 {
      OrderBelow(reqs, a, b, n - 1);
      NotEarlier(reqs, b, a, n - 1);
      NotEarlier(reqs, a, b, n - 1);
      assert a[..n] == a[..n - 1] + [a[n - 1]] && b[..n] == b[..n - 1] + [b[n - 1]];
    }
  }

  /** The release order is a function of the requests: whatever sorts them, it is the same list. */
  lemma OrderUnique(reqs: seq<Departure>, a: seq<nat>, b: seq<nat>)
    requires IsOrder(reqs, a) && IsOrder(reqs, b)
    ensures a == b
  {
    if |a| < |b| {
      OrderBelow(reqs, a, b, |a|);
      NotEarlier(reqs, b, a, |a|);
    } else {
      OrderBelow(reqs, a, b, |b|);
      if |b| < |a| {
        NotEarlier(reqs, a, b, |b|);
      }
    }
  }
}
