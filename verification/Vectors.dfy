/** Dense per-edge vectors: sums, scaling, and the pairing of a flow with prices. */
module Vectors {

  type Vec = seq<real>

  ghost predicate NonNegative(x: Vec) {
    forall e :: 0 <= e < |x| ==> x[e] >= 0.0
  }

  function Zeros(m: nat): (z: Vec)
    ensures |z| == m && forall e :: 0 <= e < m ==> z[e] == 0.0
  {
    seq(m, _ => 0.0)
  }

  function Add(x: Vec, y: Vec): (z: Vec)
    requires |x| == |y|
    ensures |z| == |x| && forall e :: 0 <= e < |x| ==> z[e] == x[e] + y[e]
  {
    seq(|x|, e requires 0 <= e < |x| => x[e] + y[e])
  }

  function Scale(t: real, x: Vec): (z: Vec)
    ensures |z| == |x| && forall e :: 0 <= e < |x| ==> z[e] == t * x[e]
  {
    seq(|x|, e requires 0 <= e < |x| => t * x[e])
  }

  /** x moved the fraction t of the way to y: (1-t)*x + t*y. */
  function Blend(t: real, x: Vec, y: Vec): (z: Vec)
    requires |x| == |y|
    ensures |z| == |x|
  {
    Add(Scale(1.0 - t, x), Scale(t, y))
  }

  lemma BlendAt(t: real, x: Vec, y: Vec, e: nat)
    requires |x| == |y| && e < |x|
    ensures Blend(t, x, y)[e] == x[e] + t * (y[e] - x[e])
  {
  }

  /** x with amount w added on edge e. */
  function Bump(x: Vec, e: int, w: real): (z: Vec)
    ensures |z| == |x|
  {
    if 0 <= e < |x| then x[e := x[e] + w] else x
  }

  /** A shard read as a vector of length m: a missing tail is zero, a surplus is ignored. */
  function Fit(m: nat, shard: Vec): (z: Vec)
    ensures |z| == m && (|shard| == m ==> z == shard)
  {
    seq(m, e requires 0 <= e < m => if e < |shard| then shard[e] else 0.0)
  }

  function SumVecs(m: nat, shards: seq<Vec>, n: nat): (z: Vec)
    requires n <= |shards|
    ensures |z| == m
  {
    if n == 0 then Zeros(m) else Add(SumVecs(m, shards, n - 1), Fit(m, shards[n - 1]))
  }

  function SumReals(totals: seq<real>, n: nat): real
    requires n <= |totals|
  {
    if n == 0 then 0.0 else SumReals(totals, n - 1) + totals[n - 1]
  }

  /** The total of flow times price over the first n edges. */
  function DotBelow(x: Vec, prices: Vec, n: nat): real
    requires n <= |x| == |prices|
  {
    if n == 0 then 0.0 else DotBelow(x, prices, n - 1) + x[n - 1] * prices[n - 1]
  }

  /** The total of flow times price over all edges. */
  function Dot(x: Vec, prices: Vec): real
    requires |x| == |prices|
  {
    DotBelow(x, prices, |x|)
  }

  lemma {:induction false} DotZeros(prices: Vec, n: nat)
    requires n <= |prices|
    ensures DotBelow(Zeros(|prices|), prices, n) == 0.0
  {
    if n > 0 {
      DotZeros(prices, n - 1);
    }
  }

  lemma {:induction false} DotAdd(x: Vec, y: Vec, prices: Vec, n: nat)
    requires n <= |x| == |y| == |prices|
    ensures DotBelow(Add(x, y), prices, n) == DotBelow(x, prices, n) + DotBelow(y, prices, n)
  {
    if n > 0 {
      DotAdd(x, y, prices, n - 1);
    }
  }

  lemma ScaleStep(t: real, total: real, x: real, price: real, scaled: real)
    requires scaled == t * x
    ensures t * total + scaled * price == t * (total + x * price)
  {
  }

  lemma {:induction false} DotScale(t: real, x: Vec, prices: Vec, n: nat)
    requires n <= |x| == |prices|
    ensures DotBelow(Scale(t, x), prices, n) == t * DotBelow(x, prices, n)
  {
    if n > 0 {
      DotScale(t, x, prices, n - 1);
      ScaleStep(t, DotBelow(x, prices, n - 1), x[n - 1], prices[n - 1], Scale(t, x)[n - 1]);
    }
  }

  /** The average of a and b with weight t on b. */
  function Weighted(t: real, a: real, b: real): real {
    (1.0 - t) * a + t * b
  }

  lemma DotBlend(t: real, x: Vec, y: Vec, prices: Vec)
    requires |x| == |y| == |prices|
    ensures Dot(Blend(t, x, y), prices) == Weighted(t, Dot(x, prices), Dot(y, prices))
  {
    DotScale(1.0 - t, x, prices, |x|);
    DotScale(t, y, prices, |x|);
    DotAdd(Scale(1.0 - t, x), Scale(t, y), prices, |x|);
  }

  lemma {:induction false} DotBump(x: Vec, e: int, w: real, prices: Vec, added: real, n: nat)
    requires n <= |x| == |prices| && 0 <= e < |x| && added == w * prices[e]
    ensures DotBelow(Bump(x, e, w), prices, n) == DotBelow(x, prices, n) + if e < n then added else 0.0
  {
    if n > 0 {
      DotBump(x, e, w, prices, added, n - 1);
    }
  }

  /** Termwise: a flow y priced at q exceeds x priced at p by at least the price-r cost of y - x. */
  lemma {:induction false} DotTangent(x: Vec, p: Vec, y: Vec, q: Vec, r: Vec, n: nat)
    requires n <= |x| == |p| == |y| == |q| == |r|
    requires forall e :: 0 <= e < n ==> y[e] * q[e] >= x[e] * p[e] + r[e] * (y[e] - x[e])
    ensures DotBelow(y, q, n) >= DotBelow(x, p, n) + DotBelow(y, r, n) - DotBelow(x, r, n)
  {
    if n > 0 {
      DotTangent(x, p, y, q, r, n - 1);
    }
  }

  // ---- averages; products are passed in by name so that each step stays linear in them

  lemma MulLeq(w: real, a: real, b: real, wa: real, wb: real)
    requires w >= 0.0 && a <= b && wa == w * a && wb == w * b
    ensures wa <= wb
  {
  }

  lemma ShareOfWhole(s: real, t: real, f: real, sf: real, tf: real)
    requires s + t == 1.0 && sf == s * f && tf == t * f
    ensures sf + tf == f
  {
    var whole := s + t;
    assert whole * f == sf + tf;
  }

  lemma WeightedAbove(t: real, a: real, b: real, floor: real)
    requires 0.0 <= t <= 1.0 && a >= floor && b >= floor
    ensures Weighted(t, a, b) >= floor
  {
    var s := 1.0 - t;
    var sa, tb, sf, tf := s * a, t * b, s * floor, t * floor;
    MulLeq(s, floor, a, sf, sa);
    MulLeq(t, floor, b, tf, tb);
    ShareOfWhole(s, t, floor, sf, tf);
  }

  lemma WeightedMonotone(t: real, a: real, a': real, b: real)
    requires 0.0 <= t <= 1.0 && a <= a'
    ensures Weighted(t, a, b) <= Weighted(t, a', b)
  {
    MulLeq(1.0 - t, a, a', (1.0 - t) * a, (1.0 - t) * a');
  }

  lemma WeightedMinus(t: real, a: real, b: real, c: real, d: real)
    ensures Weighted(t, a - c, b - d) == Weighted(t, a, b) - Weighted(t, c, d)
  {
    var s := 1.0 - t;
    assert s * (a - c) == s * a - s * c && t * (b - d) == t * b - t * d;
  }

  lemma DotBlendAbove(t: real, x: Vec, y: Vec, prices: Vec, floor: real)
    requires |x| == |y| == |prices| && 0.0 <= t <= 1.0
    requires Dot(x, prices) >= floor && Dot(y, prices) >= floor
    ensures Dot(Blend(t, x, y), prices) >= floor
  {
    DotBlend(t, x, y, prices);
    WeightedAbove(t, Dot(x, prices), Dot(y, prices), floor);
  }

  lemma DotBlendSame(t: real, x: Vec, y: Vec, prices: Vec, d: real)
    requires |x| == |y| == |prices| && Dot(x, prices) == d && Dot(y, prices) == d
    ensures Dot(Blend(t, x, y), prices) == d
  {
    DotBlend(t, x, y, prices);
    ShareOfWhole(1.0 - t, t, d, (1.0 - t) * d, t * d);
  }

  lemma BlendNonNegative(t: real, x: Vec, y: Vec)
    requires |x| == |y| && 0.0 <= t <= 1.0 && NonNegative(x) && NonNegative(y)
    ensures NonNegative(Blend(t, x, y))
  {
    forall e | 0 <= e < |x|
      ensures Blend(t, x, y)[e] >= 0.0
    {
      assert Blend(t, x, y)[e] == Weighted(t, x[e], y[e]);
      WeightedAbove(t, x[e], y[e], 0.0);
    }
  }
}
