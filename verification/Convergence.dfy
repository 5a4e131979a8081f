/** How close a number of iterations brings the system-optimal router to every feasible flow. */
module Convergence {
  import opened Graphs
  import opened Vectors
  import opened Assignment
  import opened Pricing
  import opened Equilibrium
  import opened RunTheorems
  import Bpr

  // ---- the loads an averaging run can reach

  function Weights(reqs: seq<Request>): (ws: seq<real>)
    ensures |ws| == |reqs| && forall i :: 0 <= i < |reqs| ==> ws[i] == RequestWeight(reqs[i])
  {
    seq(|reqs|, i requires 0 <= i < |reqs| => RequestWeight(reqs[i]))
  }

  /** What all requests together put on the network: no edge can carry more. */
  function Demand(reqs: seq<Request>): real {
    SumReals(Weights(reqs), |reqs|)
  }

  ghost predicate InBox(x: Vec, most: real) {
    forall e :: 0 <= e < |x| ==> 0.0 <= x[e] <= most
  }

  ghost predicate DistinctEdges(p: seq<int>) {
    forall i, j :: 0 <= i < j < |p| ==> p[i] != p[j]
  }

  /** A loopless path takes no edge twice: it would be back where that edge starts. */
  lemma LooplessEdgesDistinct(g: Graph, a: int, p: seq<int>, b: int)
    requires IsPath(g, a, p, b)
    ensures DistinctEdges(p)
  {
    forall i, j | 0 <= i < j < |p|
      ensures p[i] != p[j]
    {
      WalkEdge(g, a, p, b, i);
      WalkEdge(g, a, p, b, j);
    }
  }

  lemma {:induction false} AddRouteOnce(x: Vec, p: seq<int>, w: real, k: nat, e: nat)
    requires DistinctEdges(p) && k <= |p| && e < |x|
    ensures AddRouteBelow(x, p, w, k)[e] == x[e] + if e in p[..k] then w else 0.0
  {
    if k > 0 {
      AddRouteOnce(x, p, w, k - 1, e);
      assert p[..k] == p[..k - 1] + [p[k - 1]];
    }
  }

  lemma {:induction false} FlowInBox(m: nat, reqs: seq<Request>, paths: seq<seq<int>>, n: nat)
    requires n <= |reqs| == |paths| && forall i :: 0 <= i < |paths| ==> DistinctEdges(paths[i])
    ensures InBox(FlowBelow(m, reqs, paths, n), SumReals(Weights(reqs), n))
  {
    if n > 0 {
      FlowInBox(m, reqs, paths, n - 1);
      var x, p, w := FlowBelow(m, reqs, paths, n - 1), paths[n - 1], RequestWeight(reqs[n - 1]);
      forall e | 0 <= e < m
        ensures 0.0 <= AddRoute(x, p, w)[e] <= SumReals(Weights(reqs), n)
      {
        AddRouteOnce(x, p, w, |p|, e);
      }
    }
  }

  lemma OutcomeInBox(g: Graph, reqs: seq<Request>, w: Weight, o: Outcome)
    requires IsAllOrNothing(g, reqs, w, o)
    ensures InBox(o.flows, Demand(reqs))
  {
    forall i | 0 <= i < |reqs|
      ensures DistinctEdges(Paths(o.routes)[i])
    {
      LooplessEdgesDistinct(g, reqs[i].src, o.routes[i].edges, reqs[i].dst);
    }
    FlowInBox(|g.edges|, reqs, Paths(o.routes), |reqs|);
  }

  lemma {:induction false} DemandNonNegative(reqs: seq<Request>, n: nat)
    requires n <= |reqs|
    ensures SumReals(Weights(reqs), n) >= 0.0
  {
    if n > 0 {
      DemandNonNegative(reqs, n - 1);
    }
  }

  lemma BlendInBox(t: real, x: Vec, y: Vec, most: real)
    requires |x| == |y| && 0.0 <= t <= 1.0 && InBox(x, most) && InBox(y, most)
    ensures InBox(Blend(t, x, y), most)
  {
    forall e | 0 <= e < |x|
      ensures 0.0 <= Blend(t, x, y)[e] <= most
    {
      assert Blend(t, x, y)[e] == Weighted(t, x[e], y[e]);
      WeightedAbove(t, x[e], y[e], 0.0);
      WeightedBelow(t, x[e], y[e], most);
    }
  }

  lemma WeightedBelow(t: real, a: real, b: real, top: real)
    requires 0.0 <= t <= 1.0 && a <= top && b <= top
    ensures Weighted(t, a, b) <= top
  {
    WeightedAbove(t, -a, -b, -top);
    WeightedNegated(t, a, b);
  }

  lemma WeightedNegated(t: real, a: real, b: real)
    ensures Weighted(t, -a, -b) == -Weighted(t, a, b)
  {
  }

  lemma EmptyInBox(net: Network, reqs: seq<Request>)
    ensures InBox(Zeros(net.Size()), Demand(reqs))
  {
    DemandNonNegative(reqs, |reqs|);
  }

  lemma NextInBox(k: nat, rec: StepRecord, most: real)
    requires k > 0 && |rec.flow| == |rec.outcome.flows|
    requires rec.next == Blend(1.0 / k as real, rec.flow, rec.outcome.flows)
    requires InBox(rec.flow, most) && InBox(rec.outcome.flows, most)
    ensures InBox(rec.next, most)
  {
    StepShare(k);
    BlendInBox(1.0 / k as real, rec.flow, rec.outcome.flows, most);
  }

  /** Every flow of an averaging run loads each edge with at most the whole demand. */
  lemma {:induction false} RunInBox(net: Network, basis: Basis, reqs: seq<Request>, bounds: seq<BatchRange>,
                                    run: seq<StepRecord>, j: nat)
    requires IsRun(Averaging(basis), net, reqs, bounds, run) && j < |run|
    ensures |run[j].flow| == |run[j].outcome.flows| == net.Size()
    ensures InBox(run[j].flow, Demand(reqs)) && InBox(run[j].outcome.flows, Demand(reqs))
  {
    StepOf(net, basis, reqs, bounds, run, j);
    OutcomeInBox(net.g, reqs, WeightFromFlows(net.bpr, basis, run[j].flow), run[j].outcome);
    if j == 0 {
      EmptyInBox(net, reqs);
    } else {
      RunInBox(net, basis, reqs, bounds, run, j - 1);
      StepBlends(net, basis, reqs, bounds, run, j);
      NextInBox(j, run[j - 1], Demand(reqs));
    }
  }

  // ---- how much the total time can bend inside the box

  /** The bend of each edge over loads up to `most`, times the largest squared change of load. */
  function Bends(net: Network, most: real): (c: Vec)
    ensures |c| == net.Size()
    ensures forall e :: 0 <= e < net.Size() ==> c[e] == Bpr.EdgeBend(net.bpr, net.g.edges[e], most) * (most * most)
  {
    seq(net.Size(), e requires 0 <= e < net.Size() => Bpr.EdgeBend(net.bpr, net.g.edges[e], most) * (most * most))
  }

  /** The constant of the rate: what one whole step can lose to curvature, over all edges. */
  function Curvature(net: Network, reqs: seq<Request>): real {
    SumReals(Bends(net, Demand(reqs)), net.Size())
  }

  /** Moving the share t of the way from x to s, both in the box, bends by at most t*t of the whole. */
  lemma SquaredMove(t: real, tt: real, x: real, s: real, most: real, moved: real,
                    bend: real, c: real, bent: real, u: real)
    requires 0.0 <= x <= most && 0.0 <= s <= most && moved == t * (s - x) && bend >= 0.0 && tt == t * t
    requires c == bend * (most * most) && bent == bend * (moved * moved) && u == tt * c
    ensures bent <= u
  {
    var d := s - x;
    SquareBelow(d, most);
    Bpr.SquareNonNegative(t);
    assert moved * moved == tt * (d * d);
    ScaledSquare(tt, bend, d * d, most * most, moved * moved);
  }

  lemma SquareBelow(d: real, most: real)
    requires -most <= d <= most
    ensures d * d <= most * most
  {
    Bpr.MulNonNegative(most - d, most + d);
    assert (most - d) * (most + d) == most * most - d * d;
  }

  lemma ScaledSquare(tt: real, bend: real, dd: real, mm: real, square: real)
    requires tt >= 0.0 && bend >= 0.0 && dd <= mm && square == tt * dd
    ensures bend * square <= tt * (bend * mm)
  {
    MulLeq(tt, dd, mm, square, tt * mm);
    MulLeq(bend, square, tt * mm, bend * square, bend * (tt * mm));
    assert bend * (tt * mm) == tt * (bend * mm);
  }

  /** One edge of one step, from load x toward s by the share t. */
  lemma EdgeStep(bpr: Bpr.Bpr, e: Edge, t: real, tt: real, x: real, s: real, y: real, moved: real, most: real,
                 totalX: real, totalY: real, slope: real, c: real, u: real)
    requires bpr.Valid() && e.freeFlowS >= 0.0 && tt == t * t
    requires 0.0 <= x <= most && 0.0 <= s <= most && 0.0 <= y <= most && moved == y - x && moved == t * (s - x)
    requires totalX == x * bpr.Cost(e, x) && totalY == y * bpr.Cost(e, y) && slope == bpr.MarginalCost(e, x) * moved
    requires c == Bpr.EdgeBend(bpr, e, most) * (most * most) && u == tt * c
    ensures totalY <= totalX + slope + u
  {
    var marginal, bend, square := bpr.MarginalCost(e, x), Bpr.EdgeBend(bpr, e, most), moved * moved;
    Bpr.EdgeBendNonNegative(bpr, e, most);
    Bpr.TotalCostBelow(bpr, e, x, y, most, totalX, totalY, marginal, bend, moved, slope, bend * square);
    SquaredMove(t, tt, x, s, most, moved, bend, c, bend * square, u);
  }

  /** y at price q exceeds x at price p by at most the price-r cost of y - x, and u. */
  ghost predicate TermBelow(x: real, p: real, y: real, q: real, r: real, u: real) {
    y * q <= x * p + r * (y - x) + u
  }

  lemma EdgeTerm(bpr: Bpr.Bpr, e: Edge, t: real, tt: real, x: real, s: real, y: real, most: real,
                 p: real, q: real, r: real, c: real, u: real)
    requires bpr.Valid() && e.freeFlowS >= 0.0 && tt == t * t
    requires 0.0 <= x <= most && 0.0 <= s <= most && 0.0 <= y <= most && y == x + t * (s - x)
    requires p == bpr.Cost(e, x) && q == bpr.Cost(e, y) && r == bpr.MarginalCost(e, x)
    requires c == Bpr.EdgeBend(bpr, e, most) * (most * most) && u == tt * c
    ensures TermBelow(x, p, y, q, r, u)
  {
    EdgeStep(bpr, e, t, tt, x, s, y, y - x, most, x * p, y * q, r * (y - x), c, u);
  }

  ghost predicate TermsBelow(x: Vec, p: Vec, y: Vec, q: Vec, r: Vec, u: Vec)
    requires |x| == |p| == |y| == |q| == |r| == |u|
  {
    forall e :: 0 <= e < |x| ==> TermBelow(x[e], p[e], y[e], q[e], r[e], u[e])
  }

  lemma {:induction false} DotBelowTangent(x: Vec, p: Vec, y: Vec, q: Vec, r: Vec, u: Vec, n: nat)
    requires n <= |x| == |p| == |y| == |q| == |r| == |u| && TermsBelow(x, p, y, q, r, u)
    ensures DotBelow(y, q, n) <= DotBelow(x, p, n) + DotBelow(y, r, n) - DotBelow(x, r, n) + SumReals(u, n)
  {
    if n > 0 {
      DotBelowTangent(x, p, y, q, r, u, n - 1);
      assert TermBelow(x[n - 1], p[n - 1], y[n - 1], q[n - 1], r[n - 1], u[n - 1]);
    }
  }

  function Share(t: real, whole: real): real { t * whole }

  lemma {:induction false} SumScaled(t: real, c: Vec, n: nat, total: real)
    requires n <= |c| && total == SumReals(c, n)
    ensures SumReals(Scale(t, c), n) == Share(t, total)
  {
    if n > 0 {
      SumScaled(t, c, n - 1, SumReals(c, n - 1));
      Distribute(t, SumReals(c, n - 1), c[n - 1], total);
    }
  }

  lemma Distribute(t: real, a: real, b: real, sum: real)
    requires sum == a + b
    ensures t * sum == t * a + t * b
  {
  }

  /** Every edge of one step inside the box, with u the share of the bends. */
  lemma StepTerms(net: Network, t: real, tt: real, x: Vec, s: Vec, y: Vec, most: real,
                  p: Vec, q: Vec, r: Vec, c: Vec, u: Vec)
    requires net.Valid() && |x| == |s| == |y| == net.Size() && tt == t * t
    requires y == Blend(t, x, s) && InBox(x, most) && InBox(s, most) && InBox(y, most)
    requires p == Prices(net, Realized, x) && q == Prices(net, Realized, y) && r == Prices(net, Marginal, x)
    requires c == Bends(net, most) && u == Scale(tt, c)
    ensures TermsBelow(x, p, y, q, r, u)
  {
    forall e | 0 <= e < |x|
      ensures TermBelow(x[e], p[e], y[e], q[e], r[e], u[e])
    {
      BlendAt(t, x, s, e);
      EdgeTerm(net.bpr, net.g.edges[e], t, tt, x[e], s[e], y[e], most, p[e], q[e], r[e], c[e], u[e]);
    }
  }

  function Square(t: real): real { t * t }

  /** What one step of share t can lose to curvature. */
  function Lost(net: Network, reqs: seq<Request>, t: real): real {
    SumReals(Scale(Square(t), Bends(net, Demand(reqs))), net.Size())
  }

  lemma LostIs(net: Network, reqs: seq<Request>, t: real)
    ensures Lost(net, reqs, t) == Share(Square(t), Curvature(net, reqs))
  {
    SumScaled(Square(t), Bends(net, Demand(reqs)), net.Size(), Curvature(net, reqs));
  }

  /** One step inside the box: the total time falls along the tangent, up to what is lost. */
  lemma StepBelow(net: Network, reqs: seq<Request>, t: real, x: Vec, s: Vec, y: Vec)
    requires net.Valid() && |x| == |s| == net.Size() && 0.0 <= t <= 1.0 && y == Blend(t, x, s)
    requires InBox(x, Demand(reqs)) && InBox(s, Demand(reqs))
    ensures TotalNetworkTime(net, y)
            <= TotalNetworkTime(net, x) + Dot(y, Prices(net, Marginal, x)) - Dot(x, Prices(net, Marginal, x))
               + Lost(net, reqs, t)
  {
    var p, q, r := Prices(net, Realized, x), Prices(net, Realized, y), Prices(net, Marginal, x);
    var c := Bends(net, Demand(reqs));
    BlendInBox(t, x, s, Demand(reqs));
    StepTerms(net, t, Square(t), x, s, y, Demand(reqs), p, q, r, c, Scale(Square(t), c));
    DotBelowTangent(x, p, y, q, r, Scale(Square(t), c), |x|);
  }

  // ---- the recurrence and the rate

  /** 1 + 1/2 + ... + 1/k. */
  function Harmonic(k: nat): real {
    if k == 0 then 0.0 else Harmonic(k - 1) + 1.0 / k as real
  }

  /** A step toward the cheapest routing at x closes the share t of the distance to y, up to curvature. */
  lemma StepCloses(t: real, tx: real, ty: real, tnext: real, dx: real, ds: real, dy: real, dnext: real, bent: real)
    requires 0.0 <= t <= 1.0 && dnext == Weighted(t, dx, ds) && ds <= dy
    requires tnext <= tx + dnext - dx + bent
    requires ty >= tx + dy - dx
    ensures tnext <= Weighted(t, tx, ty) + bent
  {
    WeightedMinus(t, tx, ty, dx, dy);
    WeightedAbove(t, tx - dx, ty - dy, tx - dx);
    WeightedMonotoneInSecond(t, dx, ds, dy);
  }

  lemma WeightedMonotoneInSecond(t: real, a: real, b: real, b': real)
    requires 0.0 <= t <= 1.0 && b <= b'
    ensures Weighted(t, a, b) <= Weighted(t, a, b')
  {
    MulLeq(t, b, b', t * b, t * b');
  }

  /** What the k-th step of a run is, as far as the rate needs it. */
  ghost predicate Averages(net: Network, reqs: seq<Request>, k: nat, t: real, rec: StepRecord) {
    && 0.0 <= t <= 1.0 && t * k as real == 1.0
    && |rec.flow| == |rec.outcome.flows| == net.Size() && rec.next == Blend(t, rec.flow, rec.outcome.flows)
    && IsAllOrNothing(net.g, reqs, WeightFromFlows(net.bpr, Marginal, rec.flow), rec.outcome)
    && InBox(rec.flow, Demand(reqs)) && InBox(rec.outcome.flows, Demand(reqs))
  }

  lemma StepAverages(net: Network, reqs: seq<Request>, bounds: seq<BatchRange>, run: seq<StepRecord>, k: nat)
    requires IsRun(Averaging(Marginal), net, reqs, bounds, run) && 0 < k <= |run|
    ensures Averages(net, reqs, k, 1.0 / k as real, run[k - 1])
  {
    StepOf(net, Marginal, reqs, bounds, run, k - 1);
    StepBlends(net, Marginal, reqs, bounds, run, k);
    StepShare(k);
    Reciprocal(k, 1.0 / k as real);
    RunInBox(net, Marginal, reqs, bounds, run, k - 1);
  }

  /** k times a step of share t = 1/k: k*next <= (k-1)*before + limit + t*c. */
  lemma RateStep(k: real, t: real, before: real, limit: real, next: real, c: real)
    requires k > 0.0 && t * k == 1.0 && next <= Weighted(t, before, limit) + t * t * c
    ensures k * (next - limit) <= (k - 1.0) * (before - limit) + t * c
  {
    var slack := Weighted(t, before, limit) + t * t * c - next;
    Bpr.MulNonNegative(k, slack);
    assert k * Weighted(t, before, limit) == (k - 1.0) * before + limit by {
      assert k * ((1.0 - t) * before) == k * before - (t * k) * before;
      assert k * (t * limit) == (t * k) * limit;
    }
    assert k * (t * t * c) == (t * k) * (t * c);
  }

  /** n times the excess of a total time over a limit. */
  function Behind(n: nat, time: real, limit: real): real {
    n as real * (time - limit)
  }

  /** The k-th step closes 1/k of the distance to the limit, up to 1/k^2 of the curvature. */
  ghost predicate Closes(k: nat, before: real, limit: real, next: real, c: real) {
    exists t :: ClosesBy(k, t, before, limit, next, c)
  }

  ghost predicate ClosesBy(k: nat, t: real, before: real, limit: real, next: real, c: real) {
    t * k as real == 1.0 && next <= Weighted(t, before, limit) + Share(Square(t), c)
  }

  lemma StepIsClosing(k: nat, t: real, before: real, limit: real, next: real, c: real, bent: real)
    requires t * k as real == 1.0 && bent == Share(Square(t), c) && next <= Weighted(t, before, limit) + bent
    ensures Closes(k, before, limit, next, c)
  {
    assert ClosesBy(k, t, before, limit, next, c);
  }

  /** c times 1 + 1/2 + ... + 1/k. */
  function Allowance(c: real, k: nat): real {
    c * Harmonic(k)
  }

  lemma AllowanceGrows(k: nat, t: real, c: real)
    requires k > 0 && t * k as real == 1.0
    ensures Allowance(c, k) == Allowance(c, k - 1) + t * c
  {
    assert t == 1.0 / k as real;
    assert c * (Harmonic(k - 1) + t) == c * Harmonic(k - 1) + t * c;
  }

  lemma ClosingStep(k: nat, before: real, limit: real, next: real, c: real)
    requires k > 0 && Closes(k, before, limit, next, c) && Behind(k - 1, before, limit) <= Allowance(c, k - 1)
    ensures Behind(k, next, limit) <= Allowance(c, k)
  {
    var t :| ClosesBy(k, t, before, limit, next, c);
    RateStep(k as real, t, before, limit, next, c);
    AllowanceGrows(k, t, c);
  }

  /** Whatever closes its distance at that rate is behind by at most c times 1 + 1/2 + ... + 1/k, over k. */
  lemma {:induction false} ClosingRate(times: seq<real>, limit: real, c: real, k: nat)
    requires k < |times| && forall j :: 0 < j < |times| ==> Closes(j, times[j - 1], limit, times[j], c)
    ensures Behind(k, times[k], limit) <= Allowance(c, k)
  {
    if k > 0 {
      ClosingRate(times, limit, c, k - 1);
      ClosingStep(k, times[k - 1], limit, times[k], c);
    }
  }

  /** An averaging step in the box closes in on any feasible flow. */
  lemma StepCloser(net: Network, reqs: seq<Request>, k: nat, t: real, rec: StepRecord, plan: Plan)
    requires net.Valid() && Averages(net, reqs, k, t, rec) && PlanOk(net.g, reqs, plan)
    ensures |rec.next| == net.Size()
    ensures Closes(k, TotalNetworkTime(net, rec.flow), TotalNetworkTime(net, PlanFlow(net.g, reqs, plan)),
                   TotalNetworkTime(net, rec.next), Curvature(net, reqs))
  {
    var x, s, y, prices := rec.flow, rec.outcome.flows, PlanFlow(net.g, reqs, plan), Prices(net, Marginal, rec.flow);
    StepBelow(net, reqs, t, x, s, rec.next);
    DotBlend(t, x, s, prices);
    AllOrNothingPriced(net, Marginal, reqs, x, rec.outcome);
    AllOrNothingIsCheapest(net, Marginal, reqs, x, rec.outcome, plan);
    TotalTimeTangent(net, x, y);
    StepCloses(t, TotalNetworkTime(net, x), TotalNetworkTime(net, y), TotalNetworkTime(net, rec.next),
               Dot(x, prices), Dot(s, prices), Dot(y, prices), Dot(rec.next, prices), Lost(net, reqs, t));
    LostIs(net, reqs, t);
    StepIsClosing(k, t, TotalNetworkTime(net, x), TotalNetworkTime(net, y), TotalNetworkTime(net, rec.next),
                  Curvature(net, reqs), Lost(net, reqs, t));
  }

  lemma RunCloses(net: Network, reqs: seq<Request>, bounds: seq<BatchRange>, run: seq<StepRecord>, j: nat, plan: Plan)
    requires net.Valid() && IsRun(Averaging(Marginal), net, reqs, bounds, run) && 0 < j <= |run|
    requires PlanOk(net.g, reqs, plan)
    ensures |run[j - 1].flow| == |run[j - 1].next| == net.Size()
    ensures Closes(j, TotalNetworkTime(net, run[j - 1].flow), TotalNetworkTime(net, PlanFlow(net.g, reqs, plan)),
                   TotalNetworkTime(net, run[j - 1].next), Curvature(net, reqs))
  {
    StepAverages(net, reqs, bounds, run, j);
    StepCloser(net, reqs, j, 1.0 / j as real, run[j - 1], plan);
  }

  /** The total times of the flows a run goes through, the empty one first. */
  ghost function Times(net: Network, run: seq<StepRecord>): (ts: seq<real>)
    requires forall j :: 0 <= j < |run| ==> |run[j].next| == net.Size()
    ensures |ts| == |run| + 1
    ensures forall j :: 0 <= j <= |run| ==> ts[j] == TotalNetworkTime(net, FlowEntering(net, run, j))
  {
    seq(|run| + 1, j requires 0 <= j <= |run| => TotalNetworkTime(net, FlowEntering(net, run, j)))
  }

  /**
   The rate of the system-optimal router: after k iterations, k times the excess of its total
   time over that of any feasible flow is at most the curvature times 1 + 1/2 + ... + 1/k.
   */
  lemma SystemOptimalRate(net: Network, reqs: seq<Request>, bounds: seq<BatchRange>, run: seq<StepRecord>,
                          k: nat, plan: Plan)
    requires net.Valid() && IsRun(Averaging(Marginal), net, reqs, bounds, run) && 0 < k <= |run|
    requires PlanOk(net.g, reqs, plan)
    ensures |run[k - 1].next| == net.Size()
    ensures Behind(k, TotalNetworkTime(net, run[k - 1].next), TotalNetworkTime(net, PlanFlow(net.g, reqs, plan)))
            <= Allowance(Curvature(net, reqs), k)
  {
    forall j | 0 <= j < |run|
      ensures |run[j].next| == net.Size()
    {
      StepOf(net, Marginal, reqs, bounds, run, j);
    }
    var times, limit, c := Times(net, run), TotalNetworkTime(net, PlanFlow(net.g, reqs, plan)), Curvature(net, reqs);
    forall j | 0 < j < |times|
      ensures Closes(j, times[j - 1], limit, times[j], c)
    {
      StepBlends(net, Marginal, reqs, bounds, run, j);
      StepOf(net, Marginal, reqs, bounds, run, j - 1);
      RunCloses(net, reqs, bounds, run, j, plan);
    }
    assert FlowEntering(net, run, k) == run[k - 1].next;
    ClosingRate(times, limit, c, k);
  }
}
