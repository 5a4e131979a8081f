/** The Bureau of Public Roads volume-delay function, its marginal cost, and their convexity. */
module Bpr {
  import opened Costs
  import opened Graphs

  function Pow(x: real, n: nat): real {
    if n == 0 then 1.0 else x * Pow(x, n - 1)
  }

  lemma NextPower(x: real, n: nat, p: real, xp: real)
    requires n > 0 && p == Pow(x, n - 1) && xp == Pow(x, n)
    ensures xp == x * p
  {
  }

  lemma {:induction false} PowSplit(x: real, m: nat, n: nat)
    ensures Pow(x, m + n) == Pow(x, m) * Pow(x, n)
  {
    if m > 0 {
      var a, xa, b, ab, xab := Pow(x, m - 1), Pow(x, m), Pow(x, n), Pow(x, m - 1 + n), Pow(x, m + n);
      PowSplit(x, m - 1, n);
      NextPower(x, m, a, xa);
      NextPower(x, m + n, ab, xab);
      Regroup(x, a, xa, b, ab, xab);
    }
  }

  lemma Regroup(x: real, a: real, xa: real, b: real, ab: real, xab: real)
    requires ab == a * b && xa == x * a && xab == x * ab
    ensures xab == xa * b
  {
  }

  lemma {:induction false} PowSquare(x: real, n: nat)
    ensures Pow(x * x, n) == Pow(x, 2 * n)
  {
    if n > 0 {
      PowSquare(x, n - 1);
      PowSplit(x, 2, 2 * n - 2);
      assert Pow(x, 2) == x * Pow(x, 1) == x * x;
    }
  }

  /** One round of squaring: b^n is (b^2)^(n/2), times b when n is odd. */
  lemma PowHalve(b: real, n: nat)
    requires n > 0
    ensures Pow(b, n) == (if n % 2 == 1 then b else 1.0) * Pow(b * b, n / 2)
  {
    PowSquare(b, n / 2);
  }

  /** Exponentiation by squaring. */
  method PowBeta(base: real, beta: nat) returns (result: real)
    ensures result == Pow(base, beta)
  {
    var b, exponent := base, beta;
    result := 1.0;
    while exponent > 0
      invariant result * Pow(b, exponent) == Pow(base, beta)
    {
      PowHalve(b, exponent);
      if exponent % 2 == 1 {
        result := result * b;
      }
      b := b * b;
      exponent := exponent / 2;
    }
  }

  lemma {:induction false} PowNonNegative(x: real, n: nat)
    requires x >= 0.0
    ensures Pow(x, n) >= 0.0
  {
    if n > 0 {
      PowNonNegative(x, n - 1);
    }
  }

  lemma MulNonNegative(a: real, b: real)
    requires a >= 0.0 && b >= 0.0
    ensures a * b >= 0.0
  {
  }

  /** x^(n+1) lies above its tangents: y^(n+1) >= x^(n+1) + (n+1) x^n (y - x). */
  lemma {:induction false} PowTangent(x: real, y: real, n: nat)
    requires x >= 0.0 && y >= 0.0
    ensures Pow(y, n + 1) - Pow(x, n + 1) >= (n + 1) as real * Pow(x, n) * (y - x)
  {
    if n == 0 {
      assert Pow(y, 1) == y * Pow(y, 0) && Pow(x, 1) == x * Pow(x, 0);
    } else {
      PowTangent(x, y, n - 1);
      PowNonNegative(x, n - 1);
      TangentStep(x, y, n as real, Pow(x, n - 1), Pow(y, n));
    }
  }

  /** The induction step, with p = x^(n-1) and q = y^n. */
  lemma TangentStep(x: real, y: real, n: real, p: real, q: real)
    requires x >= 0.0 && y >= 0.0 && n >= 0.0 && p >= 0.0
    requires q - x * p >= n * p * (y - x)
    ensures y * q - x * (x * p) >= (n + 1.0) * (x * p) * (y - x)
  {
    MulNonNegative(y, q - x * p - n * p * (y - x));
    MulNonNegative((y - x) * (y - x), n * p);
    assert y * (q - x * p - n * p * (y - x)) + (y - x) * (y - x) * (n * p)
           == y * q - x * (x * p) - (n + 1.0) * (x * p) * (y - x);
  }

  /** The total in terms of v and r^(beta+1), and the price in terms of r^beta. */
  function ScaledTotal(ff: real, alpha: real, c: real, v: real, power: real): real {
    ff * v + ff * alpha * c * power
  }

  function ScaledPrice(ff: real, alpha: real, n: real, power: real): real {
    ff * (1.0 + alpha * n * power)
  }

  function ScaledBend(ff: real, alpha: real, c: real, b: real): real
    requires c > 0.0
  {
    ff * alpha * (b / c)
  }

  datatype Bpr = Bpr(alpha: real, beta: nat, capacityScale: real) {

    /** What the constructor and the request validation demand. */
    predicate Valid() { alpha >= 0.0 && capacityScale > 0.0 }

    function Capacity(e: Edge): real { e.capacityVph * capacityScale }

    /** Load over effective capacity, a negative load counting as none. */
    function Ratio(e: Edge, load: real): real
      requires Capacity(e) > 0.0
    {
      (if load < 0.0 then 0.0 else load) / Capacity(e)
    }

    function Cost(e: Edge, load: real): real {
      if Capacity(e) <= 0.0 then e.freeFlowS
      else e.freeFlowS * (1.0 + alpha * Pow(Ratio(e, load), beta))
    }

    function MarginalCost(e: Edge, load: real): real {
      if Capacity(e) <= 0.0 then e.freeFlowS
      else ScaledPrice(e.freeFlowS, alpha, (beta + 1) as real, Pow(Ratio(e, load), beta))
    }
  }

  lemma RatioNonNegative(bpr: Bpr, e: Edge, load: real)
    requires bpr.Capacity(e) > 0.0
    ensures bpr.Ratio(e, load) >= 0.0
    ensures load >= 0.0 ==> bpr.Ratio(e, load) * bpr.Capacity(e) == load
  {
    var c, v := bpr.Capacity(e), if load < 0.0 then 0.0 else load;
    var r := bpr.Ratio(e, load);
    assert r * c == v;
    NonNegativeFactor(r, c);
  }

  lemma NonNegativeFactor(r: real, c: real)
    requires c > 0.0 && r * c >= 0.0
    ensures r >= 0.0
  {
  }

  /**
   The two costs in terms of the edge's own numbers, r being the load, none if negative, in shares of
   capacityVph times the scale; without capacity both are the free-flow time.
   */
  lemma CostFormula(bpr: Bpr, e: Edge, load: real, r: real)
    requires e.capacityVph * bpr.capacityScale > 0.0 ==>
      r * (e.capacityVph * bpr.capacityScale) == if load < 0.0 then 0.0 else load
    ensures e.capacityVph * bpr.capacityScale > 0.0 ==>
      && bpr.Cost(e, load) == e.freeFlowS * (1.0 + bpr.alpha * Pow(r, bpr.beta))
      && bpr.MarginalCost(e, load) == e.freeFlowS * (1.0 + bpr.alpha * (bpr.beta as real + 1.0) * Pow(r, bpr.beta))
    ensures e.capacityVph * bpr.capacityScale <= 0.0 ==>
      bpr.Cost(e, load) == bpr.MarginalCost(e, load) == e.freeFlowS
  {
    if e.capacityVph * bpr.capacityScale > 0.0 {
      SameShare(r, bpr.Ratio(e, load), e.capacityVph * bpr.capacityScale);
    }
  }

  lemma SameShare(r: real, q: real, c: real)
    requires c > 0.0 && r * c == q * c
    ensures r == q
  {
  }

  /** Congestion only adds: free flow <= cost <= marginal cost. */
  lemma CostOrder(bpr: Bpr, e: Edge, load: real)
    requires bpr.Valid() && e.freeFlowS >= 0.0
    ensures 0.0 <= e.freeFlowS <= bpr.Cost(e, load) <= bpr.MarginalCost(e, load)
  {
    if bpr.Capacity(e) > 0.0 {
      RatioNonNegative(bpr, e, load);
      var p := Pow(bpr.Ratio(e, load), bpr.beta);
      PowNonNegative(bpr.Ratio(e, load), bpr.beta);
      MulNonNegative(bpr.alpha, p);
      MulNonNegative(e.freeFlowS, bpr.alpha * p);
      MulNonNegative(bpr.beta as real, e.freeFlowS * (bpr.alpha * p));
      assert bpr.Cost(e, load) == e.freeFlowS + e.freeFlowS * (bpr.alpha * p);
      assert bpr.MarginalCost(e, load) == bpr.Cost(e, load) + bpr.beta as real * (e.freeFlowS * (bpr.alpha * p));
    }
  }

  /** What v vehicles together spend on e, in terms of the ratio: ff*v + ff*alpha*c*r^(beta+1). */
  lemma TotalByRatio(bpr: Bpr, e: Edge, v: real, total: real)
    requires bpr.Capacity(e) > 0.0 && v >= 0.0 && total == v * bpr.Cost(e, v)
    ensures total == ScaledTotal(e.freeFlowS, bpr.alpha, bpr.Capacity(e), v, Pow(bpr.Ratio(e, v), bpr.beta + 1))
  {
    RatioNonNegative(bpr, e, v);
    var r, p := bpr.Ratio(e, v), Pow(bpr.Ratio(e, v), bpr.beta);
    assert Pow(r, bpr.beta + 1) == r * p;
    TotalExpanded(e.freeFlowS, bpr.alpha, bpr.Capacity(e), r, p, v, bpr.Cost(e, v), total);
  }

  lemma TotalExpanded(ff: real, alpha: real, c: real, r: real, p: real, v: real, cost: real, total: real)
    requires r * c == v && cost == ff * (1.0 + alpha * p) && total == v * cost
    ensures total == ScaledTotal(ff, alpha, c, v, r * p)
  {
    assert c * (r * p) == v * p;
  }

  /** TotalCostTangent where congestion counts, with the three products named. */
  lemma CongestedTangent(bpr: Bpr, e: Edge, x: real, y: real, totalX: real, totalY: real, slope: real)
    requires bpr.Valid() && e.freeFlowS >= 0.0 && x >= 0.0 && y >= 0.0 && bpr.Capacity(e) > 0.0
    requires totalX == x * bpr.Cost(e, x) && totalY == y * bpr.Cost(e, y)
    requires slope == bpr.MarginalCost(e, x) * (y - x)
    ensures totalY >= totalX + slope
  {
    TotalByRatio(bpr, e, x, totalX);
    TotalByRatio(bpr, e, y, totalY);
    RatioNonNegative(bpr, e, x);
    RatioNonNegative(bpr, e, y);
    var rx, ry := bpr.Ratio(e, x), bpr.Ratio(e, y);
    PowTangent(rx, ry, bpr.beta);
    TangentScaled(e.freeFlowS, bpr.alpha, bpr.Capacity(e), rx, ry, (bpr.beta + 1) as real, Pow(rx, bpr.beta),
                  Pow(rx, bpr.beta + 1), Pow(ry, bpr.beta + 1), x, y, slope);
  }

  /** A load that counts as none: both costs are the free-flow time, unless congestion is a constant factor. */
  lemma UncongestedCost(bpr: Bpr, e: Edge, load: real)
    requires load <= 0.0 && bpr.Capacity(e) > 0.0 && bpr.beta > 0
    ensures bpr.Cost(e, load) == bpr.MarginalCost(e, load) == e.freeFlowS
  {
    assert bpr.Ratio(e, load) == 0.0;
    assert Pow(0.0, bpr.beta) == 0.0;
  }

  /** No load makes an edge cheaper than it is when empty. */
  lemma EmptyIsCheapest(bpr: Bpr, e: Edge, load: real)
    requires bpr.Valid() && e.freeFlowS >= 0.0
    ensures bpr.Cost(e, 0.0) <= bpr.Cost(e, load) && bpr.MarginalCost(e, 0.0) <= bpr.MarginalCost(e, load)
  {
    if bpr.Capacity(e) > 0.0 {
      if bpr.beta == 0 {
        FlatCost(bpr, e, 0.0, load);
        FlatCost(bpr, e, load, 0.0);
      } else {
        CostOrder(bpr, e, load);
        UncongestedCost(bpr, e, 0.0);
      }
    }
  }

  /** With the exponent 0 the load does not matter at all. */
  lemma FlatCost(bpr: Bpr, e: Edge, load: real, other: real)
    requires bpr.Capacity(e) > 0.0 && bpr.beta == 0
    ensures bpr.Cost(e, load) == bpr.Cost(e, other) == bpr.MarginalCost(e, load)
  {
  }

  lemma ClampedTangent(x: real, y: real, ff: real, cx: real, mx: real, cy: real)
    requires x < 0.0 || y < 0.0
    requires 0.0 <= ff <= cx <= mx && ff <= cy
    requires (x < 0.0 ==> mx == ff) && (y < 0.0 ==> cy == ff)
    ensures y * cy >= x * cx + mx * (y - x)
  {
    if x < 0.0 {
      assert x * cx + mx * (y - x) == ff * y;
      if y >= 0.0 {
        MulNonNegative(y, cy - ff);
        assert y * cy == y * ff + y * (cy - ff);
      }
    } else {
      MulNonNegative(x, mx - cx);
      MulNonNegative(-y, mx - ff);
      assert y * cy - (x * cx + mx * (y - x)) == x * (mx - cx) + (-y) * (mx - ff);
    }
  }

  /**
   The marginal cost is a subgradient of the total v*Cost(v), so the total is convex over all
   loads, those clamped at 0 included: y*Cost(y) >= x*Cost(x) + MarginalCost(x)*(y - x).
   */
  lemma TotalCostTangent(bpr: Bpr, e: Edge, x: real, y: real)
    requires bpr.Valid() && e.freeFlowS >= 0.0
    ensures y * bpr.Cost(e, y) >= x * bpr.Cost(e, x) + bpr.MarginalCost(e, x) * (y - x)
  {
    var cx, mx, cy := bpr.Cost(e, x), bpr.MarginalCost(e, x), bpr.Cost(e, y);
    if bpr.Capacity(e) <= 0.0 || bpr.beta == 0 {
      if bpr.Capacity(e) > 0.0 {
        FlatCost(bpr, e, x, y);
      }
      FlatTangent(x, y, cx);
    } else if x >= 0.0 && y >= 0.0 {
      CongestedTangent(bpr, e, x, y, x * cx, y * cy, mx * (y - x));
    } else {
      CostOrder(bpr, e, x);
      CostOrder(bpr, e, y);
      if x < 0.0 {
        UncongestedCost(bpr, e, x);
      }
      if y < 0.0 {
        UncongestedCost(bpr, e, y);
      }
      ClampedTangent(x, y, e.freeFlowS, cx, mx, cy);
    }
  }

  lemma FlatTangent(x: real, y: real, c: real)
    ensures y * c == x * c + c * (y - x)
  {
  }

  lemma TangentScaled(ff: real, alpha: real, c: real, rx: real, ry: real, n: real, p: real, px: real, py: real,
                      x: real, y: real, slope: real)
    requires ff >= 0.0 && alpha >= 0.0 && c > 0.0 && rx * c == x && ry * c == y
    requires py - px >= n * p * (ry - rx) && slope == ScaledPrice(ff, alpha, n, p) * (y - x)
    ensures ScaledTotal(ff, alpha, c, y, py) >= ScaledTotal(ff, alpha, c, x, px) + slope
  {
    var d := ry - rx;
    MulNonNegative(ff, alpha);
    MulNonNegative(ff * alpha, c);
    MulNonNegative(ff * alpha * c, py - px - n * p * d);
    assert y - x == c * d;
    SlopeScaled(ff, alpha, c, n, p, d, y - x, slope);
  }

  lemma SlopeScaled(ff: real, alpha: real, c: real, n: real, p: real, d: real, moved: real, slope: real)
    requires moved == c * d && slope == ScaledPrice(ff, alpha, n, p) * moved
    ensures slope == ff * moved + ff * alpha * c * (n * p * d)
  {
    assert ScaledPrice(ff, alpha, n, p) == ff + ff * alpha * (n * p);
    assert slope == ff * moved + ff * alpha * (n * p) * (c * d);
  }

  // ---- and not too convex: an upper bound on the bend

  /** Half the largest second derivative of x^n between 0 and `top`. */
  function Bend(top: real, n: nat): real {
    if n <= 1 then 0.0 else (n - 1) as real * Pow(top, n - 2) + top * Bend(top, n - 1)
  }

  lemma {:induction false} BendNonNegative(top: real, n: nat)
    requires top >= 0.0
    ensures Bend(top, n) >= 0.0
  {
    if n > 1 {
      BendNonNegative(top, n - 1);
      PowNonNegative(top, n - 2);
      MulNonNegative((n - 1) as real, Pow(top, n - 2));
      MulNonNegative(top, Bend(top, n - 1));
    }
  }

  lemma ProductGrows(a: real, b: real, c: real, d: real)
    requires 0.0 <= a <= b && 0.0 <= c <= d
    ensures 0.0 <= a * c <= b * d
  {
    MulNonNegative(a, c);
    MulNonNegative(b - a, d);
    MulNonNegative(a, d - c);
    assert b * d - a * c == (b - a) * d + a * (d - c);
  }

  lemma {:induction false} PowGrows(x: real, top: real, n: nat)
    requires 0.0 <= x <= top
    ensures 0.0 <= Pow(x, n) <= Pow(top, n)
  {
    if n > 0 {
      PowGrows(x, top, n - 1);
      ProductGrows(x, top, Pow(x, n - 1), Pow(top, n - 1));
    }
  }

  /** The tangent px + n p d raised by b dd. */
  ghost function Raised(px: real, n: real, p: real, d: real, b: real, dd: real): real {
    px + n * p * d + b * dd
  }

  lemma FirstPower(x: real)
    ensures Pow(x, 1) == x
  {
    assert Pow(x, 1) == x * Pow(x, 0);
  }

  lemma NextBend(top: real, n: nat, r: real, b: real, bend: real)
    requires n > 0 && r == Pow(top, n - 1) && b == Bend(top, n) && bend == Bend(top, n + 1)
    ensures bend == n as real * r + top * b
  {
  }

  /** x^(n+1) lies below its tangents plus the bend times the squared distance. */
  lemma {:induction false} PowBelow(x: real, y: real, top: real, n: nat, d: real, dd: real)
    requires 0.0 <= x <= top && 0.0 <= y <= top && d == y - x && dd == d * d
    ensures Pow(y, n + 1) <= Raised(Pow(x, n + 1), (n + 1) as real, Pow(x, n), d, Bend(top, n + 1), dd)
  {
    if n == 0 {
      FirstPower(x);
      FirstPower(y);
    } else {
      PowBelow(x, y, top, n - 1, d, dd);
      BelowStep(x, y, top, n, d, dd);
    }
  }

  lemma BelowStep(x: real, y: real, top: real, n: nat, d: real, dd: real)
    requires 0.0 <= x <= top && 0.0 <= y <= top && d == y - x && dd == d * d && n > 0
    requires Pow(y, n) <= Raised(Pow(x, n), n as real, Pow(x, n - 1), d, Bend(top, n), dd)
    ensures Pow(y, n + 1) <= Raised(Pow(x, n + 1), (n + 1) as real, Pow(x, n), d, Bend(top, n + 1), dd)
  {
    ghost var p, xp, xxp, q, yq := Pow(x, n - 1), Pow(x, n), Pow(x, n + 1), Pow(y, n), Pow(y, n + 1);
    ghost var r, b, bend := Pow(top, n - 1), Bend(top, n), Bend(top, n + 1);
    NextPower(x, n, p, xp);
    NextPower(x, n + 1, xp, xxp);
    NextPower(y, n + 1, q, yq);
    NextBend(top, n, r, b, bend);
    PowGrows(x, top, n - 1);
    BendNonNegative(top, n);
    BendStep(x, y, top, n as real, p, r, q, b, d, dd, xp, xxp, yq, bend, (n + 1) as real);
  }

  /** The induction step, with p = x^(n-1), r = top^(n-1), q = y^n and b the bend of x^n. */
  lemma BendStep(x: real, y: real, top: real, n: real, p: real, r: real, q: real, b: real, d: real, dd: real,
                 xp: real, xxp: real, yq: real, bend: real, m: real)
    requires 0.0 <= x <= top && 0.0 <= y <= top && n >= 0.0 && 0.0 <= p <= r && b >= 0.0 && d == y - x && dd == d * d
    requires xp == x * p && xxp == x * xp && yq == y * q && bend == n * r + top * b && m == n + 1.0
    requires q <= Raised(xp, n, p, d, b, dd)
    ensures yq <= Raised(xxp, m, xp, d, bend, dd)
  {
    SquareNonNegative(d);
    BendTerms(n, p, r, y, top, b, bend, dd);
    MulNonNegative(y, xp + n * p * d + b * dd - q);
    BendExpanded(x, y, n, p, q, b, d, dd);
  }

  lemma BendTerms(n: real, p: real, r: real, y: real, top: real, b: real, bend: real, dd: real)
    requires n >= 0.0 && 0.0 <= p <= r && 0.0 <= y <= top && b >= 0.0 && dd >= 0.0 && bend == n * r + top * b
    ensures bend * dd >= (n * p + y * b) * dd
  {
    ProductGrows(p, r, n, n);
    ProductGrows(y, top, b, b);
    MulNonNegative(bend - (n * p + y * b), dd);
  }

  lemma BendExpanded(x: real, y: real, n: real, p: real, q: real, b: real, d: real, dd: real)
    requires d == y - x && dd == d * d
    ensures y * (x * p + n * p * d + b * dd - q)
            == x * (x * p) + (n + 1.0) * (x * p) * d + (n * p + y * b) * dd - y * q
  {
  }

  lemma SquareNonNegative(d: real)
    ensures d * d >= 0.0
  {
    if d >= 0.0 {
      MulNonNegative(d, d);
    } else {
      MulNonNegative(-d, -d);
    }
  }

  /** How much the total of an edge bends, at most, while its load stays between 0 and `most`. */
  function EdgeBend(bpr: Bpr, e: Edge, most: real): real {
    if bpr.Capacity(e) <= 0.0 then 0.0
    else ScaledBend(e.freeFlowS, bpr.alpha, bpr.Capacity(e), Bend(most / bpr.Capacity(e), bpr.beta + 1))
  }

  lemma QuotientOrder(x: real, most: real, c: real)
    requires c > 0.0 && 0.0 <= x <= most
    ensures 0.0 <= x / c <= most / c && (x / c) * c == x
  {
    var a, b := x / c, most / c;
    assert a * c == x && b * c == most && (b - a) * c == most - x;
    NonNegativeFactor(a, c);
    NonNegativeFactor(b - a, c);
  }

  lemma EdgeBendNonNegative(bpr: Bpr, e: Edge, most: real)
    requires bpr.Valid() && e.freeFlowS >= 0.0 && most >= 0.0
    ensures EdgeBend(bpr, e, most) >= 0.0
  {
    if bpr.Capacity(e) > 0.0 {
      var c := bpr.Capacity(e);
      QuotientOrder(0.0, most, c);
      BendNonNegative(most / c, bpr.beta + 1);
      QuotientOrder(Bend(most / c, bpr.beta + 1), Bend(most / c, bpr.beta + 1), c);
      MulNonNegative(e.freeFlowS, bpr.alpha);
      MulNonNegative(e.freeFlowS * bpr.alpha, Bend(most / c, bpr.beta + 1) / c);
    }
  }

  /** The total of an edge lies below its tangents plus the bend times the squared change of load. */
  lemma TotalCostBelow(bpr: Bpr, e: Edge, x: real, y: real, most: real, totalX: real, totalY: real,
                       marginal: real, bend: real, moved: real, slope: real, bent: real)
    requires bpr.Valid() && e.freeFlowS >= 0.0 && 0.0 <= x <= most && 0.0 <= y <= most
    requires totalX == x * bpr.Cost(e, x) && totalY == y * bpr.Cost(e, y) && moved == y - x
    requires marginal == bpr.MarginalCost(e, x) && slope == marginal * moved
    requires bend == EdgeBend(bpr, e, most) && bent == bend * (moved * moved)
    ensures totalY <= totalX + slope + bent
  {
    if bpr.Capacity(e) > 0.0 {
      CongestedBelow(bpr, e, x, y, most, totalX, totalY, marginal, bend, moved, slope, bent);
    } else {
      FlatTangent(x, y, e.freeFlowS);
      NothingBent(moved * moved, bent);
    }
  }

  lemma CongestedBelow(bpr: Bpr, e: Edge, x: real, y: real, most: real, totalX: real, totalY: real,
                       marginal: real, bend: real, moved: real, slope: real, bent: real)
    requires bpr.Valid() && e.freeFlowS >= 0.0 && 0.0 <= x <= most && 0.0 <= y <= most && bpr.Capacity(e) > 0.0
    requires totalX == x * bpr.Cost(e, x) && totalY == y * bpr.Cost(e, y) && moved == y - x
    requires marginal == bpr.MarginalCost(e, x) && slope == marginal * moved
    requires bend == EdgeBend(bpr, e, most) && bent == bend * (moved * moved)
    ensures totalY <= totalX + slope + bent
  {
    TotalByRatio(bpr, e, x, totalX);
    TotalByRatio(bpr, e, y, totalY);
    QuotientOrder(x, most, bpr.Capacity(e));
    QuotientOrder(y, most, bpr.Capacity(e));
    BelowByRatio(e.freeFlowS, bpr.alpha, bpr.Capacity(e), bpr.beta, bpr.Ratio(e, x), bpr.Ratio(e, y),
                 most / bpr.Capacity(e), x, y, marginal, bend, moved, slope, bent);
  }

  lemma BelowByRatio(ff: real, alpha: real, c: real, beta: nat, rx: real, ry: real, top: real,
                     x: real, y: real, marginal: real, bend: real, moved: real, slope: real, bent: real)
    requires ff >= 0.0 && alpha >= 0.0 && c > 0.0 && 0.0 <= rx <= top && 0.0 <= ry <= top && rx * c == x && ry * c == y
    requires marginal == ScaledPrice(ff, alpha, (beta + 1) as real, Pow(rx, beta))
    requires bend == ScaledBend(ff, alpha, c, Bend(top, beta + 1))
    requires moved == y - x && slope == marginal * moved && bent == bend * (moved * moved)
    ensures ScaledTotal(ff, alpha, c, y, Pow(ry, beta + 1))
            <= ScaledTotal(ff, alpha, c, x, Pow(rx, beta + 1)) + slope + bent
  {
    var d := ry - rx;
    var dd := d * d;
    PowBelow(rx, ry, top, beta, d, dd);
    BelowScaled(ff, alpha, c, rx, ry, (beta + 1) as real, Pow(rx, beta), Pow(rx, beta + 1), Pow(ry, beta + 1),
                Bend(top, beta + 1), d, dd, x, y, marginal, bend, moved, slope, bent);
  }

  lemma NothingBent(dd: real, bent: real)
    requires bent == 0.0 * dd
    ensures bent == 0.0
  {
  }

  /** Moving by d in the ratio moves by c*d in the load. */
  lemma BelowScaled(ff: real, alpha: real, c: real, rx: real, ry: real, n: real, p: real, px: real, py: real, b: real,
                    d: real, dd: real, x: real, y: real, marginal: real, bend: real, moved: real,
                    slope: real, bent: real)
    requires ff >= 0.0 && alpha >= 0.0 && c > 0.0 && rx * c == x && ry * c == y && d == ry - rx && dd == d * d
    requires py <= Raised(px, n, p, d, b, dd)
    requires marginal == ScaledPrice(ff, alpha, n, p) && bend == ScaledBend(ff, alpha, c, b)
    requires moved == y - x && slope == marginal * moved && bent == bend * (moved * moved)
    ensures ScaledTotal(ff, alpha, c, y, py) <= ScaledTotal(ff, alpha, c, x, px) + slope + bent
  {
    var f := ff * alpha * c;
    MulNonNegative(ff, alpha);
    MulNonNegative(ff * alpha, c);
    assert moved == c * d;
    SlopeScaled(ff, alpha, c, n, p, d, moved, slope);
    BentScaled(ff * alpha, c, b, b / c, d, dd, moved, bent);
    ScaledUnder(f, px, n * p * d, b * dd, py);
  }

  lemma ScaledUnder(f: real, u: real, v: real, w: real, z: real)
    requires f >= 0.0 && z <= u + v + w
    ensures f * z <= f * u + f * v + f * w
  {
    MulNonNegative(f, u + v + w - z);
  }

  lemma BentScaled(k: real, c: real, b: real, bc: real, d: real, dd: real, moved: real, bent: real)
    requires c > 0.0 && moved == c * d && dd == d * d && bc == b / c && bent == k * bc * (moved * moved)
    ensures bent == k * c * (b * dd)
  {
    assert bc * c == b;
    assert moved * moved == c * c * dd;
    assert bc * (c * c * dd) == bc * c * c * dd == b * c * dd;
  }
}
