/** Requests, routes and flows, and the sharded all-or-nothing assignment. */
module Assignment {
  import opened Costs
  import opened Graphs
  import opened Vectors

  /** One origin-destination request, its endpoints already snapped to nodes. */
  datatype Request = Request(id: string, src: int, dst: int, demand: real)

  /** A request's flow contribution: its demand if positive, else one vehicle. */
  function RequestWeight(req: Request): (w: real)
    ensures w > 0.0
  {
    if req.demand > 0.0 then req.demand else 1.0
  }

  datatype Route = Route(requestId: string, edges: seq<int>, cost: Cost)

  /** The flow after adding w on each of the first k edges of a route. */
  function AddRouteBelow(flows: Vec, edges: seq<int>, w: real, k: nat): (z: Vec)
    requires k <= |edges|
    ensures |z| == |flows|
  {
    if k == 0 then flows else Bump(AddRouteBelow(flows, edges, w, k - 1), edges[k - 1], w)
  }

  function AddRoute(flows: Vec, edges: seq<int>, w: real): (z: Vec)
    ensures |z| == |flows|
  {
    AddRouteBelow(flows, edges, w, |edges|)
  }

  method AddRouteFlow(flows: array<real>, route: Route, w: real)
    modifies flows
    ensures flows[..] == AddRoute(old(flows[..]), route.edges, w)
  {
    for k := 0 to |route.edges|
      invariant flows[..] == AddRouteBelow(old(flows[..]), route.edges, w, k)
    {
      var edgeId := route.edges[k];
      if 0 <= edgeId < flows.Length {
        flows[edgeId] := flows[edgeId] + w;
      }
    }
  }

  /** The flow the first n requests place on the network, accumulated in request order. */
  function FlowBelow(m: nat, reqs: seq<Request>, paths: seq<seq<int>>, n: nat): (z: Vec)
    requires n <= |reqs| == |paths|
    ensures |z| == m
  {
    if n == 0 then Zeros(m)
    else AddRoute(FlowBelow(m, reqs, paths, n - 1), paths[n - 1], RequestWeight(reqs[n - 1]))
  }

  function FlowOf(m: nat, reqs: seq<Request>, paths: seq<seq<int>>): (z: Vec)
    requires |reqs| == |paths|
    ensures |z| == m
  {
    FlowBelow(m, reqs, paths, |reqs|)
  }

  // ---- what the flow on an edge is

  /** The summed demand of the first n requests on an edge, one vehicle where none is given, once per passage. */
  function DemandOn(reqs: seq<Request>, paths: seq<seq<int>>, e: int, n: nat): real
    requires n <= |reqs| == |paths|
  {
    if n == 0 then 0.0
    else
      DemandOn(reqs, paths, e, n - 1)
      + Passing(if reqs[n - 1].demand > 0.0 then reqs[n - 1].demand else 1.0, multiset(paths[n - 1])[e])
  }

  /** w as often as a route passes. */
  function Passing(w: real, times: nat): real {
    if times == 0 then 0.0 else Passing(w, times - 1) + w
  }

  lemma {:induction false} PassagesAdd(flows: Vec, edges: seq<int>, w: real, k: nat, e: nat)
    requires k <= |edges| && e < |flows|
    ensures AddRouteBelow(flows, edges, w, k)[e] == flows[e] + Passing(w, multiset(edges[..k])[e])
  {
    if k > 0 {
      PassagesAdd(flows, edges, w, k - 1, e);
      assert edges[..k] == edges[..k - 1] + [edges[k - 1]];
    }
  }

  /** The flow of the routes on an edge is the demand that passes it. */
  lemma {:induction false} FlowIsDemand(m: nat, reqs: seq<Request>, paths: seq<seq<int>>, n: nat, e: nat)
    requires n <= |reqs| == |paths| && e < m
    ensures FlowBelow(m, reqs, paths, n)[e] == DemandOn(reqs, paths, e, n)
  {
    if n > 0 {
      FlowIsDemand(m, reqs, paths, n - 1, e);
      var p := paths[n - 1];
      PassagesAdd(FlowBelow(m, reqs, paths, n - 1), p, RequestWeight(reqs[n - 1]), |p|, e);
      assert p[..|p|] == p;
    }
  }

  lemma {:induction false} AddRouteAdds(x: Vec, y: Vec, edges: seq<int>, w: real, k: nat)
    requires |x| == |y| && k <= |edges|
    ensures AddRouteBelow(Add(x, y), edges, w, k) == Add(x, AddRouteBelow(y, edges, w, k))
  {
    if k > 0 {
      AddRouteAdds(x, y, edges, w, k - 1);
    }
  }

  // ---- flows as linear functionals

  /** The summed price of a path's first k edges. */
  function PriceBelow(p: seq<int>, prices: Vec, k: nat): real
    requires k <= |p| && forall i :: 0 <= i < |p| ==> 0 <= p[i] < |prices|
  {
    if k == 0 then 0.0 else PriceBelow(p, prices, k - 1) + prices[p[k - 1]]
  }

  function PriceOf(p: seq<int>, prices: Vec): real
    requires forall i :: 0 <= i < |p| ==> 0 <= p[i] < |prices|
  {
    PriceBelow(p, prices, |p|)
  }

  /** w times the summed price, edge by edge. */
  function WeightedPrice(p: seq<int>, prices: Vec, w: real, k: nat): real
    requires k <= |p| && forall i :: 0 <= i < |p| ==> 0 <= p[i] < |prices|
  {
    if k == 0 then 0.0 else WeightedPrice(p, prices, w, k - 1) + w * prices[p[k - 1]]
  }

  lemma {:induction false} WeightedPriceIs(p: seq<int>, prices: Vec, w: real, k: nat)
    requires k <= |p| && forall i :: 0 <= i < |p| ==> 0 <= p[i] < |prices|
    ensures WeightedPrice(p, prices, w, k) == w * PriceBelow(p, prices, k)
  {
    if k > 0 {
      WeightedPriceIs(p, prices, w, k - 1);
      assert w * PriceBelow(p, prices, k) == w * PriceBelow(p, prices, k - 1) + w * prices[p[k - 1]];
    }
  }

  lemma {:induction false} DotAddRoute(flows: Vec, p: seq<int>, w: real, prices: Vec, k: nat)
    requires |flows| == |prices| && k <= |p| && forall i :: 0 <= i < |p| ==> 0 <= p[i] < |prices|
    ensures Dot(AddRouteBelow(flows, p, w, k), prices) == Dot(flows, prices) + WeightedPrice(p, prices, w, k)
  {
    if k > 0 {
      DotAddRoute(flows, p, w, prices, k - 1);
      DotBump(AddRouteBelow(flows, p, w, k - 1), p[k - 1], w, prices, w * prices[p[k - 1]], |prices|);
    }
  }

  ghost predicate EdgesOf(m: nat, paths: seq<seq<int>>) {
    forall r, i :: 0 <= r < |paths| && 0 <= i < |paths[r]| ==> 0 <= paths[r][i] < m
  }

  /** Pricing a flow edge by edge is pricing it route by route. */
  lemma {:induction false} DotFlow(m: nat, reqs: seq<Request>, paths: seq<seq<int>>, prices: Vec, charges: seq<real>, n: nat)
    requires n <= |reqs| == |paths| == |charges| && |prices| == m && EdgesOf(m, paths)
    requires forall r :: 0 <= r < |paths| ==>
      charges[r] == WeightedPrice(paths[r], prices, RequestWeight(reqs[r]), |paths[r]|)
    ensures Dot(FlowBelow(m, reqs, paths, n), prices) == SumReals(charges, n)
  {
    if n == 0 {
      DotZeros(prices, m);
    } else {
      var w := RequestWeight(reqs[n - 1]);
      DotFlow(m, reqs, paths, prices, charges, n - 1);
      DotAddRoute(FlowBelow(m, reqs, paths, n - 1), paths[n - 1], w, prices, |paths[n - 1]|);
    }
  }

  // ---- what an all-or-nothing assignment is

  ghost predicate Served(g: Graph, req: Request, weight: Weight) {
    g.HasNode(req.src) && g.HasNode(req.dst)
    && exists p :: IsWalk(g, req.src, p, req.dst) && PathCost(g, weight, p).Fin?
  }

  /** A cheapest loopless route for the request, with its finite cost. */
  ghost predicate Cheapest(g: Graph, req: Request, weight: Weight, route: Route) {
    && route.requestId == req.id
    && g.HasNode(req.src) && IsPath(g, req.src, route.edges, req.dst)
    && route.cost == PathCost(g, weight, route.edges) && route.cost.Fin?
    && forall p :: IsWalk(g, req.src, p, req.dst) ==> Leq(route.cost, PathCost(g, weight, p))
  }

  datatype Outcome = Outcome(routes: seq<Route>, flows: Vec, totalSP: real)

  function Paths(routes: seq<Route>): (ps: seq<seq<int>>)
    ensures |ps| == |routes| && forall i :: 0 <= i < |routes| ==> ps[i] == routes[i].edges
  {
    seq(|routes|, i requires 0 <= i < |routes| => routes[i].edges)
  }

  function CostValue(route: Route): real {
    if route.cost.Fin? then route.cost.value else 0.0
  }

  /** What a routed request adds to the assignment's total: its weight times its route's cost. */
  function Charge(req: Request, route: Route): real {
    RequestWeight(req) * CostValue(route)
  }

  function Charges(reqs: seq<Request>, routes: seq<Route>): (cs: seq<real>)
    requires |reqs| == |routes|
    ensures |cs| == |reqs| && forall i :: 0 <= i < |reqs| ==> cs[i] == Charge(reqs[i], routes[i])
  {
    seq(|reqs|, i requires 0 <= i < |reqs| => Charge(reqs[i], routes[i]))
  }

  /** Every request on a cheapest route, the flows and the total accumulated request by request. */
  ghost predicate IsAllOrNothing(g: Graph, reqs: seq<Request>, weight: Weight, o: Outcome) {
    && |o.routes| == |reqs|
    && (forall i :: 0 <= i < |reqs| ==> Cheapest(g, reqs[i], weight, o.routes[i]))
    && o.flows == FlowOf(|g.edges|, reqs, Paths(o.routes))
    && o.totalSP == SumReals(Charges(reqs, o.routes), |reqs|)
  }

  // ---- the part of the work done so far, in whatever order

  /** The flow of those of the first n requests that are marked done, accumulated in request order. */
  ghost function FlowDone(m: nat, reqs: seq<Request>, routes: seq<Route>, done: seq<bool>, n: nat): (z: Vec)
    requires n <= |reqs| == |routes| == |done|
    ensures |z| == m
  {
    if n == 0 then Zeros(m)
    else
      var z := FlowDone(m, reqs, routes, done, n - 1);
      if done[n - 1] then AddRoute(z, routes[n - 1].edges, RequestWeight(reqs[n - 1])) else z
  }

  /** The summed charges of those of the first n requests that are marked done. */
  ghost function TotalDone(charges: seq<real>, done: seq<bool>, n: nat): real
    requires n <= |charges| == |done|
  {
    if n == 0 then 0.0 else TotalDone(charges, done, n - 1) + if done[n - 1] then charges[n - 1] else 0.0
  }

  lemma {:induction false} AddRouteCommutes(x: Vec, p: seq<int>, v: real, q: seq<int>, w: real, k: nat)
    requires k <= |q|
    ensures AddRouteBelow(AddRoute(x, p, v), q, w, k) == AddRoute(AddRouteBelow(x, q, w, k), p, v)
  {
    if k > 0 {
      AddRouteCommutes(x, p, v, q, w, k - 1);
      AddRouteBump(AddRouteBelow(x, q, w, k - 1), p, v, q[k - 1], w, |p|);
    }
  }

  lemma {:induction false} AddRouteBump(x: Vec, p: seq<int>, v: real, e: int, w: real, k: nat)
    requires k <= |p|
    ensures AddRouteBelow(Bump(x, e, w), p, v, k) == Bump(AddRouteBelow(x, p, v, k), e, w)
  {
    if k > 0 {
      AddRouteBump(x, p, v, e, w, k - 1);
    }
  }

  /** Doing one more request adds its route to the flow, wherever it stands in the order. */
  lemma {:induction false} FlowDoneStep(m: nat, reqs: seq<Request>, routes: seq<Route>, done: seq<bool>,
                                        i: nat, route: Route, n: nat)
    requires n <= |reqs| == |routes| == |done| && i < |reqs| && !done[i]
    ensures FlowDone(m, reqs, routes[i := route], done[i := true], n)
            == if i < n then AddRoute(FlowDone(m, reqs, routes, done, n), route.edges, RequestWeight(reqs[i]))
               else FlowDone(m, reqs, routes, done, n)
  {
    if n > 0 {
      FlowDoneStep(m, reqs, routes, done, i, route, n - 1);
      if i < n - 1 && done[n - 1] {
        AddRouteCommutes(FlowDone(m, reqs, routes, done, n - 1),
                         route.edges, RequestWeight(reqs[i]), routes[n - 1].edges, RequestWeight(reqs[n - 1]),
                         |routes[n - 1].edges|);
      }
    }
  }

  lemma {:induction false} TotalDoneStep(charges: seq<real>, done: seq<bool>, i: nat, charge: real, n: nat)
    requires n <= |charges| == |done| && i < |done| && !done[i]
    ensures TotalDone(charges[i := charge], done[i := true], n)
            == TotalDone(charges, done, n) + if i < n then charge else 0.0
  {
    if n > 0 {
      TotalDoneStep(charges, done, i, charge, n - 1);
    }
  }

  lemma {:induction false} NothingDone(m: nat, reqs: seq<Request>, routes: seq<Route>, charges: seq<real>, done: seq<bool>, n: nat)
    requires n <= |reqs| == |routes| == |charges| == |done| && forall i :: 0 <= i < |done| ==> !done[i]
    ensures FlowDone(m, reqs, routes, done, n) == Zeros(m) && TotalDone(charges, done, n) == 0.0
  {
    if n > 0 {
      NothingDone(m, reqs, routes, charges, done, n - 1);
    }
  }

  lemma {:induction false} AllFlowDone(m: nat, reqs: seq<Request>, routes: seq<Route>, done: seq<bool>, n: nat)
    requires n <= |reqs| == |routes| == |done| && forall i :: 0 <= i < |done| ==> done[i]
    ensures FlowDone(m, reqs, routes, done, n) == FlowBelow(m, reqs, Paths(routes), n)
  {
    if n > 0 {
      AllFlowDone(m, reqs, routes, done, n - 1);
    }
  }

  lemma {:induction false} AllTotalDone(charges: seq<real>, done: seq<bool>, n: nat)
    requires n <= |charges| == |done| && forall i :: 0 <= i < |done| ==> done[i]
    ensures TotalDone(charges, done, n) == SumReals(charges, n)
  {
    if n > 0 {
      AllTotalDone(charges, done, n - 1);
    }
  }
}
