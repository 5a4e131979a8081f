/** What every reported route is: a cheapest path at the prices its request was loaded at. */
module ReportedRoutes {
  import opened Graphs
  import opened Vectors
  import opened Assignment
  import opened Pricing
  import opened Equilibrium
  import opened RunTheorems

  ghost predicate EdgesIn(g: Graph, p: seq<int>) {
    forall k :: 0 <= k < |p| ==> g.HasEdge(p[k])
  }

  /** A loopless path of the request, no dearer at the prices of a flow than any walk. */
  ghost predicate CheapestAt(net: Network, basis: Basis, flow: Vec, req: Request, path: seq<int>) {
    && net.g.HasNode(req.src) && IsPath(net.g, req.src, path, req.dst) && EdgesIn(net.g, path)
    && forall p :: IsWalk(net.g, req.src, p, req.dst) && EdgesIn(net.g, p) ==>
         PriceOf(path, Prices(net, basis, flow)) <= PriceOf(p, Prices(net, basis, flow))
  }

  lemma CheapestIsAtFlow(net: Network, basis: Basis, flow: Vec, req: Request, route: Route)
    requires net.Valid() && Cheapest(net.g, req, WeightFromFlows(net.bpr, basis, flow), route)
    ensures CheapestAt(net, basis, flow, req, route.edges)
  {
    RouteCostIsPrice(net, basis, req, flow, route);
    forall p | IsWalk(net.g, req.src, p, req.dst) && EdgesIn(net.g, p)
      ensures PriceOf(route.edges, Prices(net, basis, flow)) <= PriceOf(p, Prices(net, basis, flow))
    {
      RouteCostIsLeast(net, basis, req, flow, route, p);
    }
  }

  // ---- averaging runs

  /** An averaging step reports, for every request, a cheapest path at the prices of the flow it started from. */
  lemma AveragedRoutesAreCheapest(net: Network, basis: Basis, reqs: seq<Request>, bounds: seq<BatchRange>,
                                  run: seq<StepRecord>, j: nat, i: nat)
    requires net.Valid() && IsRun(Averaging(basis), net, reqs, bounds, run) && j < |run| && i < |reqs|
    ensures |run[j].routes| == |reqs| && CheapestAt(net, basis, run[j].flow, reqs[i], run[j].routes[i].edges)
  {
    StepOf(net, basis, reqs, bounds, run, j);
    assert Cheapest(net.g, reqs[i], WeightFromFlows(net.bpr, basis, run[j].flow), run[j].outcome.routes[i]);
    CheapestIsAtFlow(net, basis, run[j].flow, reqs[i], run[j].outcome.routes[i]);
  }

  // ---- incremental runs

  lemma {:induction false} LaterBatchesBehind(bounds: seq<BatchRange>, n: nat, k: nat, j: nat)
    requires Partitions(bounds, n) && k < j < |bounds|
    ensures bounds[k].hi <= bounds[j].lo
    decreases j
  {
    if k < j - 1 {
      LaterBatchesBehind(bounds, n, k, j - 1);
    }
    assert bounds[j - 1].hi == bounds[j].lo;
  }

  /** Loading a later batch leaves the routes loaded before alone. */
  lemma SplicedBehind(before: seq<Route>, batch: seq<Route>, lo: nat, hi: nat, i: nat)
    requires lo <= hi <= |before| && i < |before| && |batch| == hi - lo
    ensures var after := before[..lo] + batch + before[hi..];
      |after| == |before| && after[i] == if lo <= i < hi then batch[i - lo] else before[i]
  {
  }

  lemma {:induction false} RoutesStay(net: Network, reqs: seq<Request>, bounds: seq<BatchRange>, run: seq<StepRecord>,
                                      k: nat, j: nat, i: nat)
    requires IsRun(Incremental, net, reqs, bounds, run) && k <= j < |run|
    ensures j < |bounds| && |run[k].routes| == |run[j].routes| == |reqs|
    ensures i < bounds[k].hi ==> run[j].routes[i] == run[k].routes[i]
    decreases j
  {
    BatchOf(net, reqs, bounds, run, j);
    BatchOf(net, reqs, bounds, run, k);
    if k < j {
      RoutesStay(net, reqs, bounds, run, k, j - 1, i);
      LaterBatchesBehind(bounds, |reqs|, k, j);
      if i < bounds[k].hi {
        SplicedBehind(run[j - 1].routes, run[j].outcome.routes, bounds[j].lo, bounds[j].hi, i);
      }
    }
  }

  /** The batch itself, as routed. */
  lemma BatchRouted(net: Network, reqs: seq<Request>, bounds: seq<BatchRange>, run: seq<StepRecord>, k: nat, i: nat)
    requires net.Valid() && IsRun(Incremental, net, reqs, bounds, run) && k < |run|
    requires k < |bounds| && bounds[k].lo <= i < bounds[k].hi
    ensures i < |reqs| == |run[k].routes|
    ensures CheapestAt(net, Realized, run[k].flow, reqs[i], run[k].routes[i].edges)
  {
    BatchOf(net, reqs, bounds, run, k);
    var lo, hi, batch := bounds[k].lo, bounds[k].hi, run[k].outcome.routes;
    SplicedBehind(RoutesBefore(reqs, run, k), batch, lo, hi, i);
    assert Cheapest(net.g, reqs[lo..hi][i - lo], WeightFromFlows(net.bpr, Realized, run[k].flow), batch[i - lo]);
    CheapestIsAtFlow(net, Realized, run[k].flow, reqs[i], batch[i - lo]);
  }

  /** The flow a batch is routed on is that of the final routes of the requests before it. */
  lemma FlowBeforeBatch(net: Network, reqs: seq<Request>, bounds: seq<BatchRange>, run: seq<StepRecord>, k: nat, j: nat)
    requires IsRun(Incremental, net, reqs, bounds, run) && k <= j < |run|
    ensures j < |bounds| && |run[j].routes| == |reqs|
    ensures run[k].flow == FlowBelow(net.Size(), reqs, Paths(run[j].routes), bounds[k].lo)
  {
    BatchOf(net, reqs, bounds, run, j);
    BatchOf(net, reqs, bounds, run, k);
    if k > 0 {
      LoadedFlow(net, reqs, bounds, run, k);
      assert bounds[k - 1].hi == bounds[k].lo;
      forall i | 0 <= i < bounds[k].lo
        ensures Paths(run[k - 1].routes)[i] == Paths(run[j].routes)[i]
      {
        RoutesStay(net, reqs, bounds, run, k - 1, j, i);
      }
      FlowPrefix(net.Size(), reqs, Paths(run[k - 1].routes), Paths(run[j].routes), bounds[k].lo);
    }
  }

  /**
   In a finished incremental run, the route reported for each request of a batch is a cheapest
   path at the realized prices of the flow that the reported routes of all earlier batches make.
   */
  lemma IncrementalRoutesAreCheapest(net: Network, reqs: seq<Request>, bounds: seq<BatchRange>, run: seq<StepRecord>,
                                     k: nat, i: nat)
    requires net.Valid() && IsRun(Incremental, net, reqs, bounds, run) && |run| > 0
    requires Stops(run[|run| - 1]) || |run| == MAX_ITERATIONS
    requires k < |bounds| && bounds[k].lo <= i < bounds[k].hi
    ensures i < |reqs| == |run[|run| - 1].routes|
    ensures var routes := run[|run| - 1].routes;
      CheapestAt(net, Realized, FlowBelow(net.Size(), reqs, Paths(routes), bounds[k].lo), reqs[i], routes[i].edges)
  {
    IncrementalLoadsEverything(net, reqs, bounds, run);
    BatchRouted(net, reqs, bounds, run, k, i);
    RoutesStay(net, reqs, bounds, run, k, |run| - 1, i);
    FlowBeforeBatch(net, reqs, bounds, run, k, |run| - 1);
  }

  /** A total that some routing of the requests costs at the prices of a flow, and no feasible flow undercuts. */
  ghost predicate CheapestTotal(net: Network, basis: Basis, reqs: seq<Request>, x: Vec, total: real) {
    && (exists plan :: PlanOk(net.g, reqs, plan) && Dot(PlanFlow(net.g, reqs, plan), Prices(net, basis, x)) == total)
    && forall plan :: PlanOk(net.g, reqs, plan) ==> Dot(PlanFlow(net.g, reqs, plan), Prices(net, basis, x)) >= total
  }

  lemma OutcomeIsCheapestTotal(net: Network, basis: Basis, reqs: seq<Request>, x: Vec, o: Outcome)
    requires net.Valid() && IsAllOrNothing(net.g, reqs, WeightFromFlows(net.bpr, basis, x), o)
    ensures CheapestTotal(net, basis, reqs, x, o.totalSP)
  {
    OutcomeIsPlan(net, reqs, WeightFromFlows(net.bpr, basis, x), o);
    AllOrNothingPriced(net, basis, reqs, x, o);
    assert PlanOk(net.g, reqs, Routed(Paths(o.routes)));
    forall plan | PlanOk(net.g, reqs, plan)
      ensures Dot(PlanFlow(net.g, reqs, plan), Prices(net, basis, x)) >= o.totalSP
    {
      AllOrNothingIsCheapest(net, basis, reqs, x, o, plan);
    }
  }

  /** Every request is in some batch. */
  lemma {:induction false} BatchOfRequest(bounds: seq<BatchRange>, n: nat, k: nat, i: nat) returns (b: nat)
    requires Partitions(bounds, n) && k < |bounds| && i < bounds[k].hi
    ensures b <= k && bounds[b].lo <= i < bounds[b].hi
    decreases k
  {
    if bounds[k].lo <= i {
      b := k;
    } else {
      assert bounds[k - 1].hi == bounds[k].lo;
      b := BatchOfRequest(bounds, n, k - 1, i);
    }
  }

  /** The reported routes are a routing of the requests, and the final flow is theirs. */
  lemma FinalFlowIsRouting(net: Network, reqs: seq<Request>, bounds: seq<BatchRange>, run: seq<StepRecord>)
    requires net.Valid() && IsRun(Incremental, net, reqs, bounds, run) && |run| > 0
    requires Stops(run[|run| - 1]) || |run| == MAX_ITERATIONS
    ensures |run[|run| - 1].routes| == |reqs|
    ensures var plan := Routed(Paths(run[|run| - 1].routes));
      PlanOk(net.g, reqs, plan) && PlanFlow(net.g, reqs, plan) == run[|run| - 1].next
  {
    IncrementalLoadsEverything(net, reqs, bounds, run);
    BatchOf(net, reqs, bounds, run, |run| - 1);
    forall i | 0 <= i < |reqs|
      ensures net.g.HasNode(reqs[i].src)
              && IsWalk(net.g, reqs[i].src, Paths(run[|run| - 1].routes)[i], reqs[i].dst)
    {
      var k := BatchOfRequest(bounds, |reqs|, |bounds| - 1, i);
      IncrementalRoutesAreCheapest(net, reqs, bounds, run, k, i);
    }
  }

  lemma FinalTotalIsNoLess(net: Network, reqs: seq<Request>, bounds: seq<BatchRange>, run: seq<StepRecord>,
                           all: Outcome)
    requires net.Valid() && IsRun(Incremental, net, reqs, bounds, run) && |run| > 0
    requires Stops(run[|run| - 1]) || |run| == MAX_ITERATIONS
    requires |run[|run| - 1].next| == net.Size()
    requires IsAllOrNothing(net.g, reqs, WeightFromFlows(net.bpr, Realized, run[|run| - 1].next), all)
    ensures TotalNetworkTime(net, run[|run| - 1].next) >= all.totalSP
  {
    var last := run[|run| - 1];
    FinalFlowIsRouting(net, reqs, bounds, run);
    AllOrNothingIsCheapest(net, Realized, reqs, last.next, all, Routed(Paths(last.routes)));
  }

  lemma LastGap(net: Network, reqs: seq<Request>, bounds: seq<BatchRange>, run: seq<StepRecord>)
    returns (all: Outcome, tstt: real)
    requires net.Valid() && IsRun(Incremental, net, reqs, bounds, run) && |run| > 0
    requires Stops(run[|run| - 1]) || |run| == MAX_ITERATIONS
    ensures |run[|run| - 1].next| == net.Size() && tstt == TotalNetworkTime(net, run[|run| - 1].next)
    ensures IsAllOrNothing(net.g, reqs, WeightFromFlows(net.bpr, Realized, run[|run| - 1].next), all)
    ensures run[|run| - 1].gap == RelativeGap(tstt, all.totalSP) && tstt >= all.totalSP
  {
    IncrementalLoadsEverything(net, reqs, bounds, run);
    BatchOf(net, reqs, bounds, run, |run| - 1);
    var last := run[|run| - 1];
    tstt := TotalNetworkTime(net, last.next);
    all :| && IsAllOrNothing(net.g, reqs, WeightFromFlows(net.bpr, Realized, last.next), all)
           && last.gap == RelativeGap(tstt, all.totalSP);
    FinalTotalIsNoLess(net, reqs, bounds, run, all);
  }

  /** By how much a total exceeds the cheapest one, in shares of the latter; 0 when that is 0. */
  ghost predicate IsGap(tstt: real, cheapest: real, gap: real) {
    if cheapest > 0.0 then gap * cheapest == tstt - cheapest else gap == 0.0
  }

  lemma GapIs(tstt: real, cheapest: real, gap: real)
    requires tstt >= cheapest && gap == RelativeGap(tstt, cheapest)
    ensures IsGap(tstt, cheapest, gap)
  {
    if cheapest > 0.0 {
      GapOfExcess(tstt, cheapest, gap);
    }
  }

  /**
   The gap an incremental run reports: how much dearer the final flow's own total time is than
   the cheapest total at its prices, in shares of the latter; 0 when that is 0.
   */
  lemma IncrementalGapIs(net: Network, reqs: seq<Request>, bounds: seq<BatchRange>, run: seq<StepRecord>)
    returns (cheapest: real)
    requires net.Valid() && IsRun(Incremental, net, reqs, bounds, run) && |run| > 0
    requires Stops(run[|run| - 1]) || |run| == MAX_ITERATIONS
    ensures |run[|run| - 1].next| == net.Size()
    ensures CheapestTotal(net, Realized, reqs, run[|run| - 1].next, cheapest)
    ensures IsGap(TotalNetworkTime(net, run[|run| - 1].next), cheapest, run[|run| - 1].gap)
  {
    var last := run[|run| - 1];
    var all, tstt := LastGap(net, reqs, bounds, run);
    cheapest := all.totalSP;
    OutcomeIsCheapestTotal(net, Realized, reqs, last.next, all);
    GapIs(tstt, cheapest, last.gap);
  }
}
