/** What a run is summed up by: the mean, a nearest-rank percentile, and the volume ratio of each edge. */
module Evaluator {
  import opened Graphs
  import opened Vectors
  import opened Pricing
  import Bpr

  /** The arithmetic mean; 0 of nothing. */
  function MeanOf(values: seq<real>): real {
    if values == [] then 0.0 else SumReals(values, |values|) / |values| as real
  }

  method Mean(values: seq<real>) returns (m: real)
    ensures m == MeanOf(values)
  {
    if |values| == 0 {
      return 0.0;
    }
    var sum := 0.0;
    for i := 0 to |values|
      invariant sum == SumReals(values, i)
    {
      sum := sum + values[i];
    }
    return sum / |values| as real;
  }

  /** The mean weighs every value alike: it is that of one value, and joining two lists adds up mean times length. */
  lemma MeanWeighs(x: real, a: seq<real>, b: seq<real>)
    ensures MeanOf([]) == 0.0 && MeanOf([x]) == x
    ensures MeanOf(a + b) * |a + b| as real == MeanOf(a) * |a| as real + MeanOf(b) * |b| as real
  {
    assert SumReals([x], 1) == SumReals([x], 0) + x;
    SumOfJoined(a, b, |b|);
    MeanTimesLength(a);
    MeanTimesLength(b);
    MeanTimesLength(a + b);
  }

  lemma MeanTimesLength(a: seq<real>)
    ensures MeanOf(a) * |a| as real == SumReals(a, |a|)
  {
  }

  lemma {:induction false} SumOfJoined(a: seq<real>, b: seq<real>, n: nat)
    requires n <= |b|
    ensures SumReals(a + b, |a| + n) == SumReals(a, |a|) + SumReals(b, n)
  {
    if n == 0 {
      SumPrefix(a, b, |a|);
    } else {
      SumOfJoined(a, b, n - 1);
    }
  }

  lemma {:induction false} SumPrefix(a: seq<real>, b: seq<real>, n: nat)
    requires n <= |a|
    ensures SumReals(a + b, n) == SumReals(a, n)
  {
    if n > 0 {
      SumPrefix(a, b, n - 1);
    }
  }

  // ---- percentiles

  /** How many of the first n values lie below y. */
  function CountLess(values: seq<real>, y: real, n: nat): (c: nat)
    requires n <= |values|
    ensures c <= n
  {
    if n == 0 then 0 else CountLess(values, y, n - 1) + if values[n - 1] < y then 1 else 0
  }

  /** How many of the first n values are at most y. */
  function CountAtMost(values: seq<real>, y: real, n: nat): nat
    requires n <= |values|
  {
    if n == 0 then 0 else CountAtMost(values, y, n - 1) + if values[n - 1] <= y then 1 else 0
  }

  /** The nearest rank of the fraction p among n values, from 1 to n. */
  function Rank(n: nat, p: real): (k: nat)
    requires n > 0
    ensures 1 <= k <= n
  {
    var rank := -((-(p * n as real)).Floor);
    if rank < 1 then 1 else if rank > n then n else rank
  }

  /** The first of the ranks from 1 to n that reaches p times n, or the last. */
  lemma RankIs(n: nat, p: real, k: nat)
    requires n > 0
    ensures k == Rank(n, p) <==>
      1 <= k <= n && (p * n as real <= k as real || k == n) && (k as real - 1.0 < p * n as real || k == 1)
  {
  }

  /** r is one of the values, and the one of nearest rank p when they are put in order. */
  ghost predicate IsPercentile(values: seq<real>, p: real, r: real) {
    if values == [] then r == 0.0
    else r in values && CountLess(values, r, |values|) < Rank(|values|, p) <= CountAtMost(values, r, |values|)
  }

  lemma {:induction false} CountsApart(values: seq<real>, a: real, b: real, n: nat)
    requires n <= |values| && a < b
    ensures CountAtMost(values, a, n) <= CountLess(values, b, n)
  {
    if n > 0 {
      CountsApart(values, a, b, n - 1);
    }
  }

  /** A percentile is a function of the values, whatever order they come in. */
  lemma PercentileUnique(values: seq<real>, p: real, a: real, b: real)
    requires IsPercentile(values, p, a) && IsPercentile(values, p, b)
    ensures a == b
  {
    if a < b {
      CountsApart(values, a, b, |values|);
    } else if b < a {
      CountsApart(values, b, a, |values|);
    }
  }

  ghost predicate Ascending(s: seq<real>) {
    forall i, j :: 0 <= i < j < |s| ==> s[i] <= s[j]
  }

  function Inserted(s: seq<real>, x: real): (t: seq<real>)
    ensures |t| == |s| + 1
  {
    if s == [] || s[|s| - 1] <= x then s + [x]
    else Inserted(s[..|s| - 1], x) + [s[|s| - 1]]
  }

  lemma {:induction false} InsertedAscends(s: seq<real>, x: real, top: real)
    requires Ascending(s) && (forall i :: 0 <= i < |s| ==> s[i] <= top) && x <= top
    ensures Ascending(Inserted(s, x)) && forall i :: 0 <= i <= |s| ==> Inserted(s, x)[i] <= top
  {
    if |s| > 0 && s[|s| - 1] > x {
      InsertedAscends(s[..|s| - 1], x, s[|s| - 1]);
    }
  }

  lemma {:induction false} CountsPrefix(s: seq<real>, t: seq<real>, y: real, n: nat)
    requires n <= |s| && n <= |t| && s[..n] == t[..n]
    ensures CountLess(s, y, n) == CountLess(t, y, n) && CountAtMost(s, y, n) == CountAtMost(t, y, n)
  {
    if n > 0 {
      assert s[n - 1] == s[..n][n - 1] == t[n - 1];
      assert s[..n - 1] == s[..n][..n - 1] == t[..n - 1];
      CountsPrefix(s, t, y, n - 1);
    }
  }

  ghost predicate SameCounts(s: seq<real>, t: seq<real>, y: real) {
    CountLess(s, y, |s|) == CountLess(t, y, |t|) && CountAtMost(s, y, |s|) == CountAtMost(t, y, |t|)
  }

  lemma CountsSnoc(s: seq<real>, x: real, y: real)
    ensures CountLess(s + [x], y, |s| + 1) == CountLess(s, y, |s|) + if x < y then 1 else 0
    ensures CountAtMost(s + [x], y, |s| + 1) == CountAtMost(s, y, |s|) + if x <= y then 1 else 0
  {
    assert (s + [x])[..|s|] == s[..|s|];
    CountsPrefix(s + [x], s, y, |s|);
  }

  lemma {:induction false} InsertedCounts(s: seq<real>, x: real, y: real)
    ensures SameCounts(Inserted(s, x), s + [x], y)
  {
    if |s| > 0 && s[|s| - 1] > x {
      var last := s[|s| - 1];
      InsertedCounts(s[..|s| - 1], x, y);
      CountsSnoc(Inserted(s[..|s| - 1], x), last, y);
      CountsSnoc(s[..|s| - 1], x, y);
      CountsSnoc(s[..|s| - 1], last, y);
      CountsSnoc(s, x, y);
      assert s == s[..|s| - 1] + [last];
    }
  }

  /** A sorted copy; the values themselves are left as they are. */
  method SortedCopy(values: seq<real>) returns (sorted: seq<real>)
    ensures |sorted| == |values| && Ascending(sorted) && forall y :: SameCounts(sorted, values, y)
  {
    sorted := [];
    for n := 0 to |values|
      invariant |sorted| == n && Ascending(sorted) && forall y :: SameCounts(sorted, values[..n], y)
    {
      var x := values[n];
      ghost var before, taken := sorted, values[..n + 1];
      InsertedAscends(sorted, x, if n > 0 && sorted[n - 1] > x then sorted[n - 1] else x);
      sorted := Inserted(sorted, x);
      forall y
        ensures SameCounts(sorted, taken, y)
      {
        assert SameCounts(before, values[..n], y);
        InsertedCounts(before, x, y);
        CountsSnoc(before, x, y);
        CountsSnoc(values[..n], x, y);
        assert values[..n] + [x] == taken;
      }
    }
    assert values[..|values|] == values;
  }

  lemma {:induction false} FewLess(s: seq<real>, y: real, k: nat, n: nat)
    requires n <= |s| && forall i :: k <= i < |s| ==> s[i] >= y
    ensures CountLess(s, y, n) <= k
  {
    if n > 0 {
      FewLess(s, y, k, n - 1);
    }
  }

  lemma {:induction false} ManyAtMost(s: seq<real>, y: real, k: nat, n: nat)
    requires n <= |s| && forall i :: 0 <= i < k && i < |s| ==> s[i] <= y
    ensures CountAtMost(s, y, n) >= if n < k then n else k
  {
    if n > 0 {
      ManyAtMost(s, y, k, n - 1);
    }
  }

  lemma {:induction false} CountedIsThere(values: seq<real>, y: real, n: nat)
    requires n <= |values| && CountLess(values, y, n) < CountAtMost(values, y, n)
    ensures y in values
  {
    if n > 0 && values[n - 1] != y {
      CountedIsThere(values, y, n - 1);
    }
  }

  /** The nearest-rank percentile. */
  method PercentileNearestRank(values: seq<real>, p: real) returns (r: real)
    ensures IsPercentile(values, p, r)
  {
    if |values| == 0 {
      return 0.0;
    }
    var sorted := SortedCopy(values);
    var rank := Rank(|values|, p);
    r := sorted[rank - 1];
    FewLess(sorted, r, rank - 1, |sorted|);
    ManyAtMost(sorted, r, rank, |sorted|);
    assert SameCounts(sorted, values, r);
    CountedIsThere(values, r, |values|);
  }

  // ---- volume ratios

  /** Load over effective capacity; 0 where there is no capacity. */
  function EdgeRatio(bpr: Bpr.Bpr, e: Edge, load: real): (ratio: real)
    ensures bpr.Capacity(e) > 0.0 ==> ratio >= 0.0 && (load >= 0.0 ==> ratio * bpr.Capacity(e) == load)
    ensures bpr.Capacity(e) <= 0.0 || load <= 0.0 ==> ratio == 0.0
  {
    if bpr.Capacity(e) <= 0.0 then 0.0
    else
      Bpr.RatioNonNegative(bpr, e, load);
      bpr.Ratio(e, load)
  }

  function EdgeRatios(net: Network, flows: Vec): (ratios: Vec)
    ensures |ratios| == net.Size()
  {
    seq(net.Size(), e requires 0 <= e < net.Size() => EdgeRatio(net.bpr, net.g.edges[e], LoadAt(flows, e)))
  }

  /** The ratio of every edge in id order. */
  method EdgeVcRatios(net: Network, flows: Vec) returns (ratios: Vec)
    ensures ratios == EdgeRatios(net, flows)
  {
    ratios := [];
    for id := 0 to net.Size()
      invariant ratios == EdgeRatios(net, flows)[..id]
    {
      ratios := ratios + [EdgeRatio(net.bpr, net.g.edges[id], LoadAt(flows, id))];
    }
  }
}
