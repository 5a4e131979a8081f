/** Edge prices under a flow, feasible flows, and what an all-or-nothing assignment proves about them. */
module Pricing {
  import opened Costs
  import opened Graphs
  import opened Vectors
  import opened Assignment
  import opened Bpr

  /** What a router charges an edge: its realized cost, or the marginal cost it imposes. */
  datatype Basis = Realized | Marginal

  /** A network and cost function with non-negative weights. */
  datatype Network = Network(g: Graph, bpr: Bpr) {
    ghost predicate Valid() {
      && g.Valid() && bpr.Valid()
      && forall e :: g.HasEdge(e) ==> g.edges[e].freeFlowS >= 0.0
    }

    function Size(): nat { |g.edges| }
  }

  function EdgePrice(bpr: Bpr, basis: Basis, e: Edge, load: real): real {
    match basis
    case Realized => bpr.Cost(e, load)
    case Marginal => bpr.MarginalCost(e, load)
  }

  /** The load on an edge; an edge outside the vector carries none. */
  function LoadAt(flows: Vec, id: int): real {
    if 0 <= id < |flows| then flows[id] else 0.0
  }

  function Prices(net: Network, basis: Basis, flows: Vec): (p: Vec)
    ensures |p| == net.Size()
    ensures forall e :: 0 <= e < net.Size() ==> p[e] == EdgePrice(net.bpr, basis, net.g.edges[e], LoadAt(flows, e))
  {
    seq(net.Size(), e requires 0 <= e < net.Size() =>
      EdgePrice(net.bpr, basis, net.g.edges[e], LoadAt(flows, e)))
  }

  /** The weights one iteration routes on, fixed by the flow it started from. */
  function WeightFromFlows(bpr: Bpr, basis: Basis, flows: Vec): Weight {
    (e: Edge) => AsCost(EdgePrice(bpr, basis, e, LoadAt(flows, e.id)))
  }

  /** A price as a weight; prices of a valid network are never negative. */
  function AsCost(price: real): Cost {
    if price >= 0.0 then Fin(price) else ZERO
  }

  lemma PricesNonNegative(net: Network, basis: Basis, flows: Vec)
    requires net.Valid()
    ensures forall e :: 0 <= e < net.Size() ==> Prices(net, basis, flows)[e] >= 0.0
  {
    forall e | 0 <= e < net.Size()
      ensures Prices(net, basis, flows)[e] >= 0.0
    {
      CostOrder(net.bpr, net.g.edges[e], LoadAt(flows, e));
    }
  }

  /** No flow makes an edge cheaper than it is on the empty network. */
  lemma PricesAboveEmpty(net: Network, basis: Basis, flows: Vec)
    requires net.Valid()
    ensures forall e :: 0 <= e < net.Size() ==> Prices(net, basis, flows)[e] >= Prices(net, basis, Zeros(net.Size()))[e]
  {
    forall e | 0 <= e < net.Size()
      ensures Prices(net, basis, flows)[e] >= Prices(net, basis, Zeros(net.Size()))[e]
    {
      EmptyIsCheapest(net.bpr, net.g.edges[e], LoadAt(flows, e));
    }
  }

  lemma {:induction false} PriceGrows(p: seq<int>, low: Vec, high: Vec, k: nat)
    requires k <= |p| && |low| == |high| && forall i :: 0 <= i < |p| ==> 0 <= p[i] < |low|
    requires forall e :: 0 <= e < |low| ==> low[e] <= high[e]
    ensures PriceBelow(p, low, k) <= PriceBelow(p, high, k)
  {
    if k > 0 {
      PriceGrows(p, low, high, k - 1);
    }
  }

  /** The total of load times price over all edges, summed in edge order. */
  method EdgeCostSum(net: Network, basis: Basis, flows: Vec) returns (total: real)
    ensures total == Dot(Fit(net.Size(), flows), Prices(net, basis, flows))
  {
    total := 0.0;
    for id := 0 to net.Size()
      invariant total == DotBelow(Fit(net.Size(), flows), Prices(net, basis, flows), id)
    {
      var load := LoadAt(flows, id);
      total := total + load * EdgePrice(net.bpr, basis, net.g.edges[id], load);
    }
  }

  /** The realized total travel time of a flow. */
  function TotalNetworkTime(net: Network, flows: Vec): real
    requires |flows| == net.Size()
  {
    Dot(flows, Prices(net, Realized, flows))
  }

  // ---- path costs are summed prices

  lemma {:induction false} PathCostIsPrice(net: Network, basis: Basis, flows: Vec, p: seq<int>, k: nat)
    requires net.Valid() && k <= |p| && forall i :: 0 <= i < |p| ==> net.g.HasEdge(p[i])
    ensures PathCost(net.g, WeightFromFlows(net.bpr, basis, flows), p[..k])
            == AsCost(PriceBelow(p, Prices(net, basis, flows), k))
    ensures PriceBelow(p, Prices(net, basis, flows), k) >= 0.0
  {
    if k > 0 {
      PathCostIsPrice(net, basis, flows, p, k - 1);
      PricesNonNegative(net, basis, flows);
      assert p[..k][..k - 1] == p[..k - 1];
    }
  }

  /** A walk costs no more where no edge does. */
  lemma WalkNoDearer(net: Network, basis: Basis, low: Vec, high: Vec, p: seq<int>)
    requires net.Valid() && forall i :: 0 <= i < |p| ==> net.g.HasEdge(p[i])
    requires forall e :: 0 <= e < net.Size() ==> Prices(net, basis, high)[e] >= Prices(net, basis, low)[e]
    ensures Leq(PathCost(net.g, WeightFromFlows(net.bpr, basis, low), p),
                PathCost(net.g, WeightFromFlows(net.bpr, basis, high), p))
  {
    PathCostIsPrice(net, basis, low, p, |p|);
    PathCostIsPrice(net, basis, high, p, |p|);
    PriceGrows(p, Prices(net, basis, low), Prices(net, basis, high), |p|);
    assert p[..|p|] == p;
  }

  /** A route's cost is its price, and a cheapest route's is least. */
  lemma RouteCostIsPrice(net: Network, basis: Basis, req: Request, x: Vec, route: Route)
    requires net.Valid() && Cheapest(net.g, req, WeightFromFlows(net.bpr, basis, x), route)
    ensures forall k :: 0 <= k < |route.edges| ==> net.g.HasEdge(route.edges[k])
    ensures CostValue(route) == PriceOf(route.edges, Prices(net, basis, x))
  {
    var p := route.edges;
    WalkStaysInside(net.g, req.src, p, req.dst);
    PathCostIsPrice(net, basis, x, p, |p|);
    assert p[..|p|] == p;
  }

  lemma RouteCostIsLeast(net: Network, basis: Basis, req: Request, x: Vec, route: Route, p: seq<int>)
    requires net.Valid() && Cheapest(net.g, req, WeightFromFlows(net.bpr, basis, x), route)
    requires IsWalk(net.g, req.src, p, req.dst) && forall k :: 0 <= k < |p| ==> 0 <= p[k] < net.Size()
    ensures CostValue(route) <= PriceOf(p, Prices(net, basis, x))
  {
    PathCostIsPrice(net, basis, x, p, |p|);
    assert p[..|p|] == p;
  }

  /** w times a price is the same whichever way it is summed. */
  lemma ChargeIsWeightedPrice(req: Request, route: Route, p: seq<int>, prices: Vec)
    requires forall k :: 0 <= k < |p| ==> 0 <= p[k] < |prices|
    ensures CostValue(route) == PriceOf(p, prices) ==> Charge(req, route) == WalkCharge(req, p, prices)
    ensures CostValue(route) <= PriceOf(p, prices) ==> Charge(req, route) <= WalkCharge(req, p, prices)
  {
    var w, a, b := RequestWeight(req), CostValue(route), PriceOf(p, prices);
    var wa, wb := w * a, w * b;
    WeightedPriceIs(p, prices, w, |p|);
    if a <= b {
      MulLeq(w, a, b, wa, wb);
    }
  }

  function WalkCharge(req: Request, p: seq<int>, prices: Vec): real
    requires forall k :: 0 <= k < |p| ==> 0 <= p[k] < |prices|
  {
    WeightedPrice(p, prices, RequestWeight(req), |p|)
  }

  function WalkCharges(reqs: seq<Request>, paths: seq<seq<int>>, prices: Vec): (cs: seq<real>)
    requires |reqs| == |paths| && EdgesOf(|prices|, paths)
    ensures |cs| == |reqs| && forall i :: 0 <= i < |reqs| ==> cs[i] == WalkCharge(reqs[i], paths[i], prices)
  {
    seq(|reqs|, i requires 0 <= i < |reqs| => WalkCharge(reqs[i], paths[i], prices))
  }

  /** An all-or-nothing assignment's flow, priced edge by edge, costs exactly its reported total. */
  lemma AllOrNothingPriced(net: Network, basis: Basis, reqs: seq<Request>, x: Vec, o: Outcome)
    requires net.Valid() && IsAllOrNothing(net.g, reqs, WeightFromFlows(net.bpr, basis, x), o)
    ensures EdgesOf(net.Size(), Paths(o.routes)) && |o.flows| == net.Size()
    ensures Dot(o.flows, Prices(net, basis, x)) == o.totalSP
  {
    forall i | 0 <= i < |reqs|
      ensures forall k :: 0 <= k < |o.routes[i].edges| ==> net.g.HasEdge(o.routes[i].edges[k])
      ensures Charge(reqs[i], o.routes[i]) == WalkCharge(reqs[i], o.routes[i].edges, Prices(net, basis, x))
    {
      RouteCostIsPrice(net, basis, reqs[i], x, o.routes[i]);
      ChargeIsWeightedPrice(reqs[i], o.routes[i], o.routes[i].edges, Prices(net, basis, x));
    }
    DotFlow(net.Size(), reqs, Paths(o.routes), Prices(net, basis, x), Charges(reqs, o.routes), |reqs|);
  }

  // ---- feasible flows: routings of the requests, and averages of such

  datatype Plan = Routed(paths: seq<seq<int>>) | Blended(t: real, a: Plan, b: Plan)

  ghost predicate PlanOk(g: Graph, reqs: seq<Request>, plan: Plan) {
    match plan
    case Routed(paths) =>
      && |paths| == |reqs|
      && forall i :: 0 <= i < |reqs| ==> g.HasNode(reqs[i].src) && IsWalk(g, reqs[i].src, paths[i], reqs[i].dst)
    case Blended(t, a, b) => 0.0 <= t <= 1.0 && PlanOk(g, reqs, a) && PlanOk(g, reqs, b)
  }

  ghost function PlanFlow(g: Graph, reqs: seq<Request>, plan: Plan): (z: Vec)
    requires PlanOk(g, reqs, plan)
    ensures |z| == |g.edges|
  {
    match plan
    case Routed(paths) => FlowOf(|g.edges|, reqs, paths)
    case Blended(t, a, b) => Blend(t, PlanFlow(g, reqs, a), PlanFlow(g, reqs, b))
  }

  lemma {:induction false} SumRealsLeq(a: seq<real>, b: seq<real>, n: nat)
    requires n <= |a| == |b| && forall i :: 0 <= i < n ==> a[i] <= b[i]
    ensures SumReals(a, n) <= SumReals(b, n)
  {
    if n > 0 {
      SumRealsLeq(a, b, n - 1);
    }
  }

  /** Under the prices it was computed for, no feasible flow is cheaper than the all-or-nothing total. */
  lemma {:induction false} AllOrNothingIsCheapest(net: Network, basis: Basis, reqs: seq<Request>, x: Vec, o: Outcome, plan: Plan)
    requires net.Valid() && IsAllOrNothing(net.g, reqs, WeightFromFlows(net.bpr, basis, x), o)
    requires PlanOk(net.g, reqs, plan)
    ensures Dot(PlanFlow(net.g, reqs, plan), Prices(net, basis, x)) >= o.totalSP
    decreases plan
  {
    var prices := Prices(net, basis, x);
    match plan
    case Routed(paths) =>
      AllOrNothingPriced(net, basis, reqs, x, o);
      RoutedIsDearer(net, basis, reqs, x, o, paths);
    case Blended(t, a, b) =>
      AllOrNothingIsCheapest(net, basis, reqs, x, o, a);
      AllOrNothingIsCheapest(net, basis, reqs, x, o, b);
      DotBlendAbove(t, PlanFlow(net.g, reqs, a), PlanFlow(net.g, reqs, b), prices, o.totalSP);
  }

  /** Each request's price along some walk is at least its price along its cheapest route. */
  lemma RoutedIsDearer(net: Network, basis: Basis, reqs: seq<Request>, x: Vec, o: Outcome, paths: seq<seq<int>>)
    requires net.Valid() && IsAllOrNothing(net.g, reqs, WeightFromFlows(net.bpr, basis, x), o)
    requires PlanOk(net.g, reqs, Routed(paths))
    ensures Dot(FlowOf(net.Size(), reqs, paths), Prices(net, basis, x)) >= o.totalSP
  {
    var prices := Prices(net, basis, x);
    AllOrNothingPriced(net, basis, reqs, x, o);
    forall i | 0 <= i < |reqs|
      ensures forall k :: 0 <= k < |paths[i]| ==> net.g.HasEdge(paths[i][k])
    {
      WalkStaysInside(net.g, reqs[i].src, paths[i], reqs[i].dst);
    }
    var charges := WalkCharges(reqs, paths, prices);
    DotFlow(net.Size(), reqs, paths, prices, charges, |reqs|);
    forall i | 0 <= i < |reqs|
      ensures Charges(reqs, o.routes)[i] <= charges[i]
    {
      RouteCostIsLeast(net, basis, reqs[i], x, o.routes[i], paths[i]);
      ChargeIsWeightedPrice(reqs[i], o.routes[i], paths[i], prices);
    }
    SumRealsLeq(Charges(reqs, o.routes), charges, |reqs|);
  }

  // ---- feasible flows are non-negative and balanced at every node

  lemma {:induction false} AddRouteNonNegative(x: Vec, p: seq<int>, w: real, k: nat)
    requires w >= 0.0 && k <= |p| && Vectors.NonNegative(x)
    ensures Vectors.NonNegative(AddRouteBelow(x, p, w, k))
  {
    if k > 0 {
      AddRouteNonNegative(x, p, w, k - 1);
    }
  }

  lemma {:induction false} FlowNonNegative(m: nat, reqs: seq<Request>, paths: seq<seq<int>>, n: nat)
    requires n <= |reqs| == |paths|
    ensures Vectors.NonNegative(FlowBelow(m, reqs, paths, n))
  {
    if n > 0 {
      FlowNonNegative(m, reqs, paths, n - 1);
      AddRouteNonNegative(FlowBelow(m, reqs, paths, n - 1), paths[n - 1], RequestWeight(reqs[n - 1]), |paths[n - 1]|);
    }
  }

  lemma {:induction false} PlanNonNegative(g: Graph, reqs: seq<Request>, plan: Plan)
    requires PlanOk(g, reqs, plan)
    ensures Vectors.NonNegative(PlanFlow(g, reqs, plan))
    decreases plan
  {
    match plan
    case Routed(paths) =>
      FlowNonNegative(|g.edges|, reqs, paths, |reqs|);
    case Blended(t, a, b) =>
      PlanNonNegative(g, reqs, a);
      PlanNonNegative(g, reqs, b);
      BlendNonNegative(t, PlanFlow(g, reqs, a), PlanFlow(g, reqs, b));
  }

  function Indicator(b: bool): real { if b then 1.0 else 0.0 }

  /** +1 on the edges leaving v, -1 on the edges entering it: the net outflow at v as prices. */
  function Incidence(g: Graph, v: int): (z: Vec)
    ensures |z| == |g.edges|
    ensures forall e :: 0 <= e < |z| ==> z[e] == Indicator(g.edges[e].from == v) - Indicator(g.edges[e].to == v)
  {
    seq(|g.edges|, e requires 0 <= e < |g.edges| =>
      Indicator(g.edges[e].from == v) - Indicator(g.edges[e].to == v))
  }

  /** w where a journey starts, less w where it ends. */
  function Net(w: real, starts: bool, ends: bool): real {
    (if starts then w else 0.0) - (if ends then w else 0.0)
  }

  /** What the requests ask of node v: weight starting there less weight ending there. */
  function NetDemands(reqs: seq<Request>, v: int): (ds: seq<real>)
    ensures |ds| == |reqs|
    ensures forall i :: 0 <= i < |reqs| ==> ds[i] == Net(RequestWeight(reqs[i]), reqs[i].src == v, reqs[i].dst == v)
  {
    seq(|reqs|, i requires 0 <= i < |reqs| => Net(RequestWeight(reqs[i]), reqs[i].src == v, reqs[i].dst == v))
  }

  lemma IncidenceStep(w: real, starts: bool, here: bool, next: bool)
    ensures Net(w, starts, here) + w * (Indicator(here) - Indicator(next)) == Net(w, starts, next)
  {
  }

  lemma {:induction false} WalkBalance(g: Graph, a: int, p: seq<int>, b: int, v: int, w: real, k: nat)
    requires IsWalk(g, a, p, b) && k <= |p| && forall i :: 0 <= i < |p| ==> 0 <= p[i] < |g.edges|
    ensures WeightedPrice(p, Incidence(g, v), w, k) == Net(w, a == v, NodeAt(g, a, p, k) == v)
  {
    if k > 0 {
      WalkBalance(g, a, p, b, v, w, k - 1);
      WalkEdge(g, a, p, b, k - 1);
      IncidenceStep(w, a == v, NodeAt(g, a, p, k - 1) == v, NodeAt(g, a, p, k) == v);
    }
  }

  lemma RoutedBalanced(g: Graph, reqs: seq<Request>, paths: seq<seq<int>>, v: int)
    requires g.Valid() && PlanOk(g, reqs, Routed(paths))
    ensures Dot(FlowOf(|g.edges|, reqs, paths), Incidence(g, v)) == SumReals(NetDemands(reqs, v), |reqs|)
  {
    forall i | 0 <= i < |reqs|
      ensures forall k :: 0 <= k < |paths[i]| ==> g.HasEdge(paths[i][k])
      ensures WeightedPrice(paths[i], Incidence(g, v), RequestWeight(reqs[i]), |paths[i]|) == NetDemands(reqs, v)[i]
    {
      WalkStaysInside(g, reqs[i].src, paths[i], reqs[i].dst);
      WalkBalance(g, reqs[i].src, paths[i], reqs[i].dst, v, RequestWeight(reqs[i]), |paths[i]|);
    }
    DotFlow(|g.edges|, reqs, paths, Incidence(g, v), NetDemands(reqs, v), |reqs|);
  }

  /** Every feasible flow meets every node's net demand exactly. */
  lemma {:induction false} PlanBalanced(g: Graph, reqs: seq<Request>, plan: Plan, v: int)
    requires g.Valid() && PlanOk(g, reqs, plan)
    ensures Dot(PlanFlow(g, reqs, plan), Incidence(g, v)) == SumReals(NetDemands(reqs, v), |reqs|)
    decreases plan
  {
    match plan
    case Routed(paths) =>
      RoutedBalanced(g, reqs, paths, v);
    case Blended(t, a, b) =>
      PlanBalanced(g, reqs, a, v);
      PlanBalanced(g, reqs, b, v);
      DotBlendSame(t, PlanFlow(g, reqs, a), PlanFlow(g, reqs, b), Incidence(g, v), SumReals(NetDemands(reqs, v), |reqs|));
  }

  // ---- the marginal gap bounds the distance from system optimum

  /**
   For any flow x and any feasible flow y: the total time of x exceeds that of y
   by at most the marginal total of x less the marginal all-or-nothing total.
   */
  lemma MarginalGapBoundsOptimum(net: Network, reqs: seq<Request>, x: Vec, o: Outcome, plan: Plan)
    requires net.Valid() && |x| == net.Size()
    requires IsAllOrNothing(net.g, reqs, WeightFromFlows(net.bpr, Marginal, x), o)
    requires PlanOk(net.g, reqs, plan)
    ensures TotalNetworkTime(net, x)
            <= TotalNetworkTime(net, PlanFlow(net.g, reqs, plan)) + (Dot(x, Prices(net, Marginal, x)) - o.totalSP)
  {
    var y := PlanFlow(net.g, reqs, plan);
    AllOrNothingIsCheapest(net, Marginal, reqs, x, o, plan);
    TotalTimeTangent(net, x, y);
  }

  /** The total time lies above its tangent at x, whose slopes are the marginal prices. */
  lemma TotalTimeTangent(net: Network, x: Vec, y: Vec)
    requires net.Valid() && |x| == |y| == net.Size()
    ensures TotalNetworkTime(net, y)
            >= TotalNetworkTime(net, x) + Dot(y, Prices(net, Marginal, x)) - Dot(x, Prices(net, Marginal, x))
  {
    var p, q, r := Prices(net, Realized, x), Prices(net, Realized, y), Prices(net, Marginal, x);
    forall e | 0 <= e < |x|
      ensures y[e] * q[e] >= x[e] * p[e] + r[e] * (y[e] - x[e])
    {
      TotalCostTangent(net.bpr, net.g.edges[e], x[e], y[e]);
    }
    DotTangent(x, p, y, q, r, |x|);
  }

  /** Averaging two flows costs no more than the average of their total times. */
  lemma TotalTimeConvex(net: Network, t: real, x: Vec, y: Vec)
    requires net.Valid() && |x| == |y| == net.Size() && 0.0 <= t <= 1.0
    ensures TotalNetworkTime(net, Blend(t, x, y))
            <= Weighted(t, TotalNetworkTime(net, x), TotalNetworkTime(net, y))
  {
    var z := Blend(t, x, y);
    var prices := Prices(net, Marginal, z);
    TotalTimeTangent(net, z, x);
    TotalTimeTangent(net, z, y);
    TangentsBlend(t, TotalNetworkTime(net, x), TotalNetworkTime(net, y), TotalNetworkTime(net, z),
                  x, y, prices);
  }

  lemma TangentsBlend(t: real, tx: real, ty: real, tz: real, x: Vec, y: Vec, prices: Vec)
    requires 0.0 <= t <= 1.0 && |x| == |y| == |prices|
    requires tx >= tz + Dot(x, prices) - Dot(Blend(t, x, y), prices)
    requires ty >= tz + Dot(y, prices) - Dot(Blend(t, x, y), prices)
    ensures tz <= Weighted(t, tx, ty)
  {
    var dx, dy := Dot(x, prices), Dot(y, prices);
    DotBlend(t, x, y, prices);
    WeightedMinus(t, tx, ty, dx, dy);
    WeightedAbove(t, tx - dx, ty - dy, tz - Weighted(t, dx, dy));
  }
}
