/** The wire protocol of the live stream. */
module Frames {

  datatype Algo = Naive | Reactive | Incremental | Msa | SystemOptimal | Multipath

  const ROUTER_ORDER: seq<Algo> := [Naive, Reactive, Incremental, Msa, SystemOptimal, Multipath]

  lemma EveryAlgo(a: Algo) returns (i: nat)
    ensures i < |ROUTER_ORDER| && ROUTER_ORDER[i] == a
  {
    i := match a
      case Naive => 0
      case Reactive => 1
      case Incremental => 2
      case Msa => 3
      case SystemOptimal => 4
      case Multipath => 5;
  }

  lemma OrderDistinct(i: nat, j: nat)
    requires i < j < |ROUTER_ORDER|
    ensures ROUTER_ORDER[i] != ROUTER_ORDER[j]
  {
  }

  datatype Metrics = Metrics(computeNanos: int, routeMedianNanos: int, realizedTotalS: real, poa: real,
                             inFlight: nat, completed: nat)

  datatype SegmentVC = SegmentVC(segment: string, vc: real, bucket: int)

  datatype Frame =
    | Snapshot(algo: Algo, tick: nat, simTime: real, segments: seq<SegmentVC>, metrics: Metrics)
    | Delta(algo: Algo, tick: nat, simTime: real, changed: seq<SegmentVC>, metrics: Metrics)

  type BucketMap = map<string, int>

  // ---- segment ids in order

  predicate LexLess(a: string, b: string) {
    |b| > 0 && (|a| == 0 || a[0] < b[0] || (a[0] == b[0] && LexLess(a[1..], b[1..])))
  }

  lemma {:induction false} LexTotal(a: string, b: string)
    ensures a == b || LexLess(a, b) || LexLess(b, a)
    ensures !(LexLess(a, b) && LexLess(b, a)) && !LexLess(a, a)
  {
    if |a| > 0 {
      LexTotal(a[1..], if |b| > 0 then b[1..] else b);
      assert a == [a[0]] + a[1..];
      if |b| > 0 {
        assert b == [b[0]] + b[1..];
      }
    }
  }

  lemma {:induction false} LexTransitive(a: string, b: string, c: string)
    requires LexLess(a, b) && LexLess(b, c)
    ensures LexLess(a, c)
  {
    if |a| > 0 && a[0] == b[0] && b[0] == c[0] {
      LexTransitive(a[1..], b[1..], c[1..]);
    }
  }

  /** Strictly increasing by segment id, so no id twice. */
  ghost predicate InIdOrder(list: seq<SegmentVC>) {
    forall i, j :: 0 <= i < j < |list| ==> LexLess(list[i].segment, list[j].segment)
  }

  /** list holds exactly the members of s, in id order. */
  ghost predicate Lists(list: seq<SegmentVC>, s: set<SegmentVC>) {
    InIdOrder(list) && forall x :: x in list <==> x in s
  }

  /** A set of entries has one listing: frames do not depend on the order a map is walked in. */
  lemma {:induction false} ListingUnique(a: seq<SegmentVC>, b: seq<SegmentVC>, s: set<SegmentVC>)
    requires Lists(a, s) && Lists(b, s)
    ensures a == b
  {
    if |a| > 0 {
      assert a[0] in b;
    }
    if |b| > 0 {
      assert b[0] in a;
      HeadsAgree(a, b, s);
      TailLists(a, s);
      TailLists(b, s);
      ListingUnique(a[1..], b[1..], s - {a[0]});
      assert a == [a[0]] + a[1..] && b == [b[0]] + b[1..];
    }
  }

  lemma HeadsAgree(a: seq<SegmentVC>, b: seq<SegmentVC>, s: set<SegmentVC>)
    requires Lists(a, s) && Lists(b, s) && |a| > 0 && |b| > 0
    ensures a[0] == b[0]
  {
    assert a[0] in b && b[0] in a;
    var i :| 0 <= i < |a| && a[i] == b[0];
    var j :| 0 <= j < |b| && b[j] == a[0];
    LexTotal(a[0].segment, b[0].segment);
  }

  lemma TailLists(a: seq<SegmentVC>, s: set<SegmentVC>)
    requires Lists(a, s) && |a| > 0
    ensures Lists(a[1..], s - {a[0]})
  {
    LexTotal(a[0].segment, a[0].segment);
    forall x
      ensures x in a[1..] <==> x in s - {a[0]}
    {
      assert a == [a[0]] + a[1..];
      if x in a[1..] {
        var i :| 0 <= i < |a[1..]| && a[1..][i] == x;
        assert a[i + 1] == x;
      }
    }
  }

  function InsertById(list: seq<SegmentVC>, x: SegmentVC): seq<SegmentVC> {
    if list == [] then [x]
    else if LexLess(x.segment, list[0].segment) then [x] + list
    else [list[0]] + InsertById(list[1..], x)
  }

  lemma {:induction false} InsertKeepsOrder(list: seq<SegmentVC>, x: SegmentVC)
    requires InIdOrder(list) && forall i :: 0 <= i < |list| ==> list[i].segment != x.segment
    ensures InIdOrder(InsertById(list, x))
    ensures forall y :: y in InsertById(list, x) <==> y in list || y == x
  {
    if list != [] {
      assert list == [list[0]] + list[1..];
      if LexLess(x.segment, list[0].segment) {
        forall j | 0 <= j < |list|
          ensures LexLess(x.segment, list[j].segment)
        {
          if j > 0 {
            LexTransitive(x.segment, list[0].segment, list[j].segment);
          }
        }
      } else {
        LexTotal(x.segment, list[0].segment);
        InsertKeepsOrder(list[1..], x);
        var rest := InsertById(list[1..], x);
        forall j | 0 <= j < |rest|
          ensures LexLess(list[0].segment, rest[j].segment)
        {
          assert rest[j] in rest;
          if rest[j] != x {
            var i :| 0 <= i < |list[1..]| && list[1..][i] == rest[j];
            assert list[i + 1] == rest[j];
          }
        }
      }
    }
  }
}
