/** What every run of the iterative routers satisfies. */
module RunTheorems {
  import opened Costs
  import opened Graphs
  import opened Vectors
  import opened Assignment
  import opened Pricing
  import opened Equilibrium
  import Bpr

  // ---- averaging runs

  /** The all-or-nothing flows of a run, in order. */
  ghost function Targets(run: seq<StepRecord>): (ys: seq<Vec>)
    ensures |ys| == |run| && forall j :: 0 <= j < |run| ==> ys[j] == run[j].outcome.flows
  {
    seq(|run|, j requires 0 <= j < |run| => run[j].outcome.flows)
  }

  /** The average of the first n vectors. */
  function Mean(m: nat, ys: seq<Vec>, n: nat): Vec
    requires 0 < n <= |ys|
  {
    Scale(1.0 / n as real, SumVecs(m, ys, n))
  }

  lemma Reciprocal(n: nat, r: real)
    requires n > 0 && r == 1.0 / n as real
    ensures r * n as real == 1.0
  {
  }

  /** r = 1/k, q = 1/(k-1): from the average x of k-1 values, one step toward y is the average of k. */
  lemma MeanStep(k: real, r: real, q: real, sum: real, x: real, y: real)
    requires r * k == 1.0 && q * (k - 1.0) == 1.0 && x == q * sum
    ensures x + r * (y - x) == r * (sum + y)
  {
    assert (k - 1.0) * x == q * (k - 1.0) * sum == sum;
    assert r * ((k - 1.0) * x) == r * k * x - r * x;
  }

  lemma MeanAt(m: nat, ys: seq<Vec>, n: nat, r: real, e: nat)
    requires 0 < n <= |ys| && e < m && r == 1.0 / n as real
    ensures |Mean(m, ys, n)| == m && Mean(m, ys, n)[e] == r * SumVecs(m, ys, n)[e]
  {
  }

  lemma SumSnoc(m: nat, ys: seq<Vec>, k: nat, e: nat)
    requires 0 < k <= |ys| && e < m == |ys[k - 1]|
    ensures SumVecs(m, ys, k)[e] == SumVecs(m, ys, k - 1)[e] + ys[k - 1][e]
  {
  }

  lemma MeanBlendAt(m: nat, ys: seq<Vec>, k: nat, flow: Vec, e: nat)
    requires 1 < k <= |ys| && e < m == |flow| && |ys[k - 1]| == m
    requires flow == Mean(m, ys, k - 1)
    ensures |Mean(m, ys, k)| == m && Blend(1.0 / k as real, flow, ys[k - 1])[e] == Mean(m, ys, k)[e]
  {
    var r, q := 1.0 / k as real, 1.0 / (k - 1) as real;
    BlendAt(r, flow, ys[k - 1], e);
    MeanAt(m, ys, k, r, e);
    MeanAt(m, ys, k - 1, q, e);
    SumSnoc(m, ys, k, e);
    Reciprocal(k, r);
    Reciprocal(k - 1, q);
    MeanStep(k as real, r, q, SumVecs(m, ys, k - 1)[e], flow[e], ys[k - 1][e]);
  }

  lemma MeanBlend(m: nat, ys: seq<Vec>, k: nat, flow: Vec)
    requires 1 < k <= |ys| && m == |flow| && |ys[k - 1]| == m && flow == Mean(m, ys, k - 1)
    ensures Blend(1.0 / k as real, flow, ys[k - 1]) == Mean(m, ys, k)
  {
    forall e | 0 <= e < m
      ensures |Mean(m, ys, k)| == m && Blend(1.0 / k as real, flow, ys[k - 1])[e] == Mean(m, ys, k)[e]
    {
      MeanBlendAt(m, ys, k, flow, e);
    }
  }

  /** The first averaging step replaces whatever it starts from. */
  lemma MeanOfOne(m: nat, ys: seq<Vec>, flow: Vec)
    requires |ys| > 0 && |ys[0]| == |flow| == m
    ensures Blend(1.0, flow, ys[0]) == Mean(m, ys, 1)
  {
    BlendWhole(flow, ys[0]);
    forall e | 0 <= e < m
      ensures |Mean(m, ys, 1)| == m && ys[0][e] == Mean(m, ys, 1)[e]
    {
      MeanAt(m, ys, 1, 1.0, e);
      SumSnoc(m, ys, 1, e);
    }
  }

  lemma StepOf(net: Network, basis: Basis, reqs: seq<Request>, bounds: seq<BatchRange>, run: seq<StepRecord>, j: nat)
    requires IsRun(Averaging(basis), net, reqs, bounds, run) && j < |run|
    ensures AveragingStep(net, basis, reqs, j + 1, run[j]) && run[j].flow == FlowEntering(net, run, j)
    ensures |run[j].outcome.flows| == |run[j].next| == net.Size()
  {
    assert LinkedAt(Averaging(basis), net, reqs, bounds, run, j);
  }

  lemma StepBlends(net: Network, basis: Basis, reqs: seq<Request>, bounds: seq<BatchRange>, run: seq<StepRecord>, k: nat)
    requires IsRun(Averaging(basis), net, reqs, bounds, run) && 0 < k <= |run|
    ensures |run[k - 1].flow| == |run[k - 1].outcome.flows| == net.Size()
    ensures run[k - 1].next == Blend(1.0 / k as real, run[k - 1].flow, run[k - 1].outcome.flows)
    ensures k > 1 ==> run[k - 1].flow == run[k - 2].next
  {
    StepOf(net, basis, reqs, bounds, run, k - 1);
  }

  /** After k iterations the running flow is exactly the average of the k all-or-nothing flows. */
  lemma {:induction false} FlowIsMean(net: Network, basis: Basis, reqs: seq<Request>, bounds: seq<BatchRange>,
                                      run: seq<StepRecord>, k: nat)
    requires IsRun(Averaging(basis), net, reqs, bounds, run) && 0 < k <= |run|
    ensures run[k - 1].next == Mean(net.Size(), Targets(run), k)
  {
    var m, ys := net.Size(), Targets(run);
    StepBlends(net, basis, reqs, bounds, run, k);
    if k == 1 {
      MeanOfOne(m, ys, run[0].flow);
    } else {
      FlowIsMean(net, basis, reqs, bounds, run, k - 1);
      MeanBlend(m, ys, k, run[k - 1].flow);
    }
  }

  /** The routing an all-or-nothing outcome is. */
  lemma OutcomeIsPlan(net: Network, reqs: seq<Request>, w: Weight, o: Outcome)
    requires IsAllOrNothing(net.g, reqs, w, o)
    ensures PlanOk(net.g, reqs, Routed(Paths(o.routes)))
    ensures PlanFlow(net.g, reqs, Routed(Paths(o.routes))) == o.flows
  {
    forall i | 0 <= i < |reqs|
      ensures net.g.HasNode(reqs[i].src) && IsWalk(net.g, reqs[i].src, Paths(o.routes)[i], reqs[i].dst)
    {
      assert Cheapest(net.g, reqs[i], w, o.routes[i]);
    }
  }

  /** From the first iteration on, the running flow is an average of routings of the requests. */
  lemma {:induction false} FlowIsFeasible(net: Network, basis: Basis, reqs: seq<Request>, bounds: seq<BatchRange>,
                                          run: seq<StepRecord>, k: nat) returns (plan: Plan)
    requires IsRun(Averaging(basis), net, reqs, bounds, run) && 0 < k <= |run|
    ensures PlanOk(net.g, reqs, plan) && PlanFlow(net.g, reqs, plan) == run[k - 1].next
  {
    var rec := run[k - 1];
    StepOf(net, basis, reqs, bounds, run, k - 1);
    OutcomeIsPlan(net, reqs, WeightFromFlows(net.bpr, basis, rec.flow), rec.outcome);
    var routing := Routed(Paths(rec.outcome.routes));
    if k == 1 {
      plan := routing;
      BlendWhole(rec.flow, rec.outcome.flows);
    } else {
      var before := FlowIsFeasible(net, basis, reqs, bounds, run, k - 1);
      StepShare(k);
      plan := Blended(1.0 / k as real, before, routing);
    }
  }

  lemma StepShare(k: nat)
    requires k > 0
    ensures 0.0 <= 1.0 / k as real <= 1.0
  {
    var r := 1.0 / k as real;
    assert r * k as real == 1.0;
  }

  lemma BlendWhole(x: Vec, y: Vec)
    requires |x| == |y|
    ensures Blend(1.0, x, y) == y
  {
    forall e | 0 <= e < |x|
      ensures Blend(1.0, x, y)[e] == y[e]
    {
      BlendAt(1.0, x, y, e);
    }
  }

  /** The running flow is never negative and meets every node's net demand exactly. */
  lemma FlowConserves(net: Network, basis: Basis, reqs: seq<Request>, bounds: seq<BatchRange>,
                      run: seq<StepRecord>, k: nat, v: int)
    requires net.Valid() && IsRun(Averaging(basis), net, reqs, bounds, run) && 0 < k <= |run|
    ensures |run[k - 1].next| == net.Size()
    ensures Vectors.NonNegative(run[k - 1].next)
    ensures Dot(run[k - 1].next, Incidence(net.g, v)) == SumReals(NetDemands(reqs, v), |reqs|)
  {
    var plan := FlowIsFeasible(net, basis, reqs, bounds, run, k);
    PlanNonNegative(net.g, reqs, plan);
    PlanBalanced(net.g, reqs, plan, v);
  }

  /** The absolute excess over the all-or-nothing total that a relative gap stands for. */
  ghost function Excess(gap: real, sptt: real): real {
    gap * sptt
  }

  lemma GapOfExcess(tstt: real, sptt: real, gap: real)
    requires tstt >= sptt > 0.0 && gap == RelativeGap(tstt, sptt)
    ensures gap >= 0.0 && tstt - sptt == Excess(gap, sptt)
  {
    var excess := tstt - sptt;
    assert gap == excess / sptt;
    assert gap * sptt == excess;
    Bpr.NonNegativeFactor(gap, sptt);
  }

  /** The current flow's total at its own prices: what the gap compares with the all-or-nothing total. */
  ghost function Tstt(net: Network, basis: Basis, rec: StepRecord): real
    requires |rec.flow| == net.Size()
  {
    Dot(rec.flow, Prices(net, basis, rec.flow))
  }

  lemma FirstGap(net: Network, basis: Basis, reqs: seq<Request>, bounds: seq<BatchRange>, run: seq<StepRecord>)
    requires IsRun(Averaging(basis), net, reqs, bounds, run) && |run| > 0 && |run[0].flow| == net.Size()
    ensures Tstt(net, basis, run[0]) == 0.0
    ensures run[0].gap == if run[0].outcome.totalSP > 0.0 then 1.0 else 0.0
  {
    StepOf(net, basis, reqs, bounds, run, 0);
    DotZeros(Prices(net, basis, run[0].flow), net.Size());
    GapFromNothing(run[0].outcome.totalSP);
  }

  lemma GapFromNothing(sptt: real)
    ensures RelativeGap(0.0, sptt) == if sptt > 0.0 then 1.0 else 0.0
  {
    if sptt > 0.0 {
      assert sptt / sptt == 1.0;
    }
  }

  // ---- single-step runs, told from the inputs

  /** Some walk serves the request for nothing at the prices of a flow. */
  ghost predicate FreeUnder(net: Network, basis: Basis, flow: Vec, req: Request) {
    exists p :: FreeWalk(net, basis, flow, req, p)
  }

  ghost predicate FreeWalk(net: Network, basis: Basis, flow: Vec, req: Request, p: seq<int>) {
    IsWalk(net.g, req.src, p, req.dst) && PathCost(net.g, WeightFromFlows(net.bpr, basis, flow), p) == ZERO
  }

  ghost predicate FreeWhenEmpty(net: Network, basis: Basis, req: Request) {
    FreeUnder(net, basis, Zeros(net.Size()), req)
  }

  lemma {:induction false} SumIsZeroIff(a: seq<real>, n: nat)
    requires n <= |a| && forall i :: 0 <= i < n ==> a[i] >= 0.0
    ensures SumReals(a, n) >= 0.0
    ensures SumReals(a, n) == 0.0 <==> forall i :: 0 <= i < n ==> a[i] == 0.0
  {
    if n > 0 {
      SumIsZeroIff(a, n - 1);
    }
  }

  lemma PositiveShare(w: real, c: real, wc: real)
    requires w > 0.0 && c >= 0.0 && wc == w * c
    ensures wc >= 0.0 && (wc == 0.0 <==> c == 0.0)
  {
  }

  lemma ChargeIsZero(req: Request, route: Route)
    requires route.cost.Fin?
    ensures Charge(req, route) >= 0.0 && (Charge(req, route) == 0.0 <==> route.cost == ZERO)
  {
    PositiveShare(RequestWeight(req), CostValue(route), Charge(req, route));
  }

  lemma CheapestIsFree(net: Network, basis: Basis, flow: Vec, req: Request, route: Route)
    requires Cheapest(net.g, req, WeightFromFlows(net.bpr, basis, flow), route)
    ensures route.cost == ZERO <==> FreeUnder(net, basis, flow, req)
  {
    if route.cost == ZERO {
      assert FreeWalk(net, basis, flow, req, route.edges);
    }
  }

  lemma ChargeIsZeroIff(net: Network, basis: Basis, flow: Vec, req: Request, route: Route)
    requires Cheapest(net.g, req, WeightFromFlows(net.bpr, basis, flow), route)
    ensures Charge(req, route) >= 0.0 && (Charge(req, route) == 0.0 <==> FreeUnder(net, basis, flow, req))
  {
    ChargeIsZero(req, route);
    CheapestIsFree(net, basis, flow, req, route);
  }

  /** An all-or-nothing total is zero exactly when every request can be served for nothing. */
  lemma TotalIsZeroIff(net: Network, basis: Basis, flow: Vec, reqs: seq<Request>, o: Outcome)
    requires IsAllOrNothing(net.g, reqs, WeightFromFlows(net.bpr, basis, flow), o)
    ensures o.totalSP >= 0.0
    ensures o.totalSP == 0.0 <==> forall i :: 0 <= i < |reqs| ==> FreeUnder(net, basis, flow, reqs[i])
  {
    var charges := Charges(reqs, o.routes);
    forall i | 0 <= i < |reqs|
      ensures charges[i] >= 0.0 && (charges[i] == 0.0 <==> FreeUnder(net, basis, flow, reqs[i]))
    {
      ChargeIsZeroIff(net, basis, flow, reqs[i], o.routes[i]);
    }
    SumIsZeroIff(charges, |reqs|);
  }

  lemma FirstStops(net: Network, basis: Basis, reqs: seq<Request>, bounds: seq<BatchRange>, run: seq<StepRecord>)
    requires IsRun(Averaging(basis), net, reqs, bounds, run) && |run| > 0
    ensures Stops(run[0]) <==> forall i :: 0 <= i < |reqs| ==> FreeWhenEmpty(net, basis, reqs[i])
  {
    StepOf(net, basis, reqs, bounds, run, 0);
    FirstGap(net, basis, reqs, bounds, run);
    TotalIsZeroIff(net, basis, run[0].flow, reqs, run[0].outcome);
  }

  /** A finished averaging run made a single step exactly when every request is free on the empty network. */
  lemma SingleStepIff(net: Network, basis: Basis, reqs: seq<Request>, bounds: seq<BatchRange>, run: seq<StepRecord>)
    requires IsRun(Averaging(basis), net, reqs, bounds, run) && |run| > 0
    requires Stops(run[|run| - 1]) || |run| == MAX_ITERATIONS
    ensures |run| == 1 <==> forall i :: 0 <= i < |reqs| ==> FreeWhenEmpty(net, basis, reqs[i])
  {
    FirstStops(net, basis, reqs, bounds, run);
  }

  /** What costs nothing under some flow costs nothing on the empty network. */
  lemma FreeUnderIsFreeWhenEmpty(net: Network, basis: Basis, flow: Vec, req: Request)
    requires net.Valid() && net.g.HasNode(req.src) && FreeUnder(net, basis, flow, req)
    ensures FreeWhenEmpty(net, basis, req)
  {
    PricesAboveEmpty(net, basis, flow);
    FreeUnderLower(net, basis, Zeros(net.Size()), flow, req);
  }

  lemma FreeUnderLower(net: Network, basis: Basis, low: Vec, high: Vec, req: Request)
    requires net.Valid() && net.g.HasNode(req.src) && FreeUnder(net, basis, high, req)
    requires forall e :: 0 <= e < net.Size() ==> Prices(net, basis, high)[e] >= Prices(net, basis, low)[e]
    ensures FreeUnder(net, basis, low, req)
  {
    var p :| FreeWalk(net, basis, high, req, p);
    WalkStaysInside(net.g, req.src, p, req.dst);
    WalkNoDearer(net, basis, low, high, p);
    assert FreeWalk(net, basis, low, req, p);
  }

  /** From the second iteration on there is always something to pay: else the first would have been the last. */
  lemma LaterTotalsPositive(net: Network, basis: Basis, reqs: seq<Request>, bounds: seq<BatchRange>,
                            run: seq<StepRecord>, j: nat)
    requires net.Valid() && IsRun(Averaging(basis), net, reqs, bounds, run) && 0 < j < |run|
    ensures run[j].outcome.totalSP > 0.0
  {
    StepOf(net, basis, reqs, bounds, run, j);
    TotalIsZeroIff(net, basis, run[j].flow, reqs, run[j].outcome);
    FirstStops(net, basis, reqs, bounds, run);
    if run[j].outcome.totalSP == 0.0 {
      forall i | 0 <= i < |reqs|
        ensures FreeWhenEmpty(net, basis, reqs[i])
      {
        assert Cheapest(net.g, reqs[i], WeightFromFlows(net.bpr, basis, run[j].flow), run[j].outcome.routes[i]);
        FreeUnderIsFreeWhenEmpty(net, basis, run[j].flow, reqs[i]);
      }
    }
  }

  /**
   The absolute value in the gap only ever matters in the first iteration: later the current
   flow costs at least the all-or-nothing total in its own basis.
   */
  lemma GapIsOneSided(net: Network, basis: Basis, reqs: seq<Request>, bounds: seq<BatchRange>,
                      run: seq<StepRecord>, j: nat)
    requires net.Valid() && IsRun(Averaging(basis), net, reqs, bounds, run) && 0 < j < |run|
    ensures |run[j].flow| == net.Size() && Tstt(net, basis, run[j]) >= run[j].outcome.totalSP > 0.0
    ensures run[j].gap >= 0.0
    ensures Tstt(net, basis, run[j]) - run[j].outcome.totalSP == Excess(run[j].gap, run[j].outcome.totalSP)
  {
    StepOf(net, basis, reqs, bounds, run, j);
    var plan := FlowIsFeasible(net, basis, reqs, bounds, run, j);
    AllOrNothingIsCheapest(net, basis, reqs, run[j].flow, run[j].outcome, plan);
    LaterTotalsPositive(net, basis, reqs, bounds, run, j);
    GapOfExcess(Tstt(net, basis, run[j]), run[j].outcome.totalSP, run[j].gap);
  }

  /** The total time of a feasible flow plus the excess an iteration's gap reports. */
  ghost function WithinGap(net: Network, reqs: seq<Request>, plan: Plan, rec: StepRecord): real
    requires PlanOk(net.g, reqs, plan)
  {
    TotalNetworkTime(net, PlanFlow(net.g, reqs, plan)) + Excess(rec.gap, rec.outcome.totalSP)
  }

  /** In a system-optimal run, the gap of an iterate bounds how far it is from every feasible flow. */
  lemma IterateNearOptimum(net: Network, reqs: seq<Request>, bounds: seq<BatchRange>, run: seq<StepRecord>,
                           j: nat, plan: Plan)
    requires net.Valid() && IsRun(Averaging(Marginal), net, reqs, bounds, run) && 0 < j < |run|
    requires PlanOk(net.g, reqs, plan)
    ensures |run[j].flow| == net.Size()
    ensures TotalNetworkTime(net, run[j].flow) <= WithinGap(net, reqs, plan, run[j])
  {
    StepOf(net, Marginal, reqs, bounds, run, j);
    GapIsOneSided(net, Marginal, reqs, bounds, run, j);
    MarginalGapBoundsOptimum(net, reqs, run[j].flow, run[j].outcome, plan);
  }

  /**
   The reported flow is one average past the iterate whose gap is reported; its total time is
   bounded through that iterate and the last all-or-nothing flow.
   */
  lemma ReportedFlowNearOptimum(net: Network, reqs: seq<Request>, bounds: seq<BatchRange>, run: seq<StepRecord>, plan: Plan)
    requires net.Valid() && IsRun(Averaging(Marginal), net, reqs, bounds, run) && |run| > 1
    requires PlanOk(net.g, reqs, plan)
    ensures |run[|run| - 1].next| == |run[|run| - 1].outcome.flows| == net.Size()
    ensures var last := run[|run| - 1];
      TotalNetworkTime(net, last.next)
      <= Weighted(1.0 / |run| as real, WithinGap(net, reqs, plan, last), TotalNetworkTime(net, last.outcome.flows))
  {
    StepBlends(net, Marginal, reqs, bounds, run, |run|);
    StepShare(|run|);
    var last := run[|run| - 1];
    IterateNearOptimum(net, reqs, bounds, run, |run| - 1, plan);
    BlendWithin(net, 1.0 / |run| as real, last.flow, last.outcome.flows, WithinGap(net, reqs, plan, last));
  }

  lemma BlendWithin(net: Network, t: real, x: Vec, y: Vec, bound: real)
    requires net.Valid() && |x| == |y| == net.Size() && 0.0 <= t <= 1.0
    requires TotalNetworkTime(net, x) <= bound
    ensures TotalNetworkTime(net, Blend(t, x, y)) <= Weighted(t, bound, TotalNetworkTime(net, y))
  {
    TotalTimeConvex(net, t, x, y);
    WeightedMonotone(t, TotalNetworkTime(net, x), bound, TotalNetworkTime(net, y));
  }

  // ---- incremental runs

  lemma {:induction false} FlowPrefix(m: nat, reqs: seq<Request>, ps: seq<seq<int>>, qs: seq<seq<int>>, n: nat)
    requires n <= |reqs| == |ps| == |qs| && forall i :: 0 <= i < n ==> ps[i] == qs[i]
    ensures FlowBelow(m, reqs, ps, n) == FlowBelow(m, reqs, qs, n)
  {
    if n > 0 {
      FlowPrefix(m, reqs, ps, qs, n - 1);
    }
  }

  /** Loading the requests lo..lo+n on top of the first lo adds their own flow. */
  lemma {:induction false} FlowAppend(m: nat, reqs: seq<Request>, ps: seq<seq<int>>, lo: nat, hi: nat, n: nat)
    requires lo + n <= hi <= |reqs| == |ps|
    ensures FlowBelow(m, reqs, ps, lo + n)
            == Add(FlowBelow(m, reqs, ps, lo), FlowBelow(m, reqs[lo..hi], ps[lo..hi], n))
  {
    var base := FlowBelow(m, reqs, ps, lo);
    if n == 0 {
      assert Add(base, Zeros(m)) == base;
    } else {
      FlowAppend(m, reqs, ps, lo, hi, n - 1);
      AddRouteAdds(base, FlowBelow(m, reqs[lo..hi], ps[lo..hi], n - 1), ps[lo + n - 1],
                   RequestWeight(reqs[lo + n - 1]), |ps[lo + n - 1]|);
    }
  }

  lemma BatchOf(net: Network, reqs: seq<Request>, bounds: seq<BatchRange>, run: seq<StepRecord>, j: nat)
    requires IsRun(Incremental, net, reqs, bounds, run) && j < |run|
    ensures j < |bounds| && |RoutesBefore(reqs, run, j)| == |reqs| == |run[j].routes|
    ensures IncrementalStep(net, reqs, bounds, j + 1, RoutesBefore(reqs, run, j), run[j])
    ensures run[j].flow == FlowEntering(net, run, j)
  {
    assert LinkedAt(Incremental, net, reqs, bounds, run, j);
  }

  /** After k batches the cumulative flow is the flow of the routes reported for the requests loaded so far. */
  lemma {:induction false} LoadedFlow(net: Network, reqs: seq<Request>, bounds: seq<BatchRange>, run: seq<StepRecord>, k: nat)
    requires IsRun(Incremental, net, reqs, bounds, run) && 0 < k <= |run|
    ensures k <= |bounds| && |run[k - 1].routes| == |reqs|
    ensures run[k - 1].next == FlowBelow(net.Size(), reqs, Paths(run[k - 1].routes), bounds[k - 1].hi)
  {
    BatchOf(net, reqs, bounds, run, k - 1);
    var before := RoutesBefore(reqs, run, k - 1);
    if k > 1 {
      LoadedFlow(net, reqs, bounds, run, k - 1);
      assert bounds[k - 2].hi == bounds[k - 1].lo;
    }
    LoadOneBatch(net.Size(), reqs, before, run[k - 1].outcome.routes, run[k - 1].flow,
                 bounds[k - 1].lo, bounds[k - 1].hi);
  }

  /** Loading one batch keeps the flow equal to that of the routes recorded up to its end. */
  lemma LoadOneBatch(m: nat, reqs: seq<Request>, before: seq<Route>, batch: seq<Route>, flow: Vec, lo: nat, hi: nat)
    requires lo <= hi <= |reqs| == |before| && |batch| == hi - lo && |flow| == m
    requires flow == FlowBelow(m, reqs, Paths(before), lo)
    ensures var after := before[..lo] + batch + before[hi..];
      && |after| == |reqs|
      && FlowBelow(m, reqs, Paths(after), hi) == Add(flow, FlowOf(m, reqs[lo..hi], Paths(batch)))
  {
    SplicedPaths(before, batch, lo, hi);
    LoadPaths(m, reqs, Paths(before), Paths(before[..lo] + batch + before[hi..]), lo, hi);
  }

  lemma LoadPaths(m: nat, reqs: seq<Request>, ps: seq<seq<int>>, qs: seq<seq<int>>, lo: nat, hi: nat)
    requires lo <= hi <= |reqs| == |ps| == |qs| && forall i :: 0 <= i < lo ==> ps[i] == qs[i]
    ensures FlowBelow(m, reqs, qs, hi) == Add(FlowBelow(m, reqs, ps, lo), FlowOf(m, reqs[lo..hi], qs[lo..hi]))
  {
    FlowPrefix(m, reqs, ps, qs, lo);
    FlowAppend(m, reqs, qs, lo, hi, hi - lo);
  }

  lemma SplicedPaths(before: seq<Route>, batch: seq<Route>, lo: nat, hi: nat)
    requires lo <= hi <= |before| && |batch| == hi - lo
    ensures var ps := Paths(before[..lo] + batch + before[hi..]);
      && |ps| == |before| && ps[lo..hi] == Paths(batch)
      && forall i :: 0 <= i < lo ==> ps[i] == Paths(before)[i]
  {
  }

  /**
   Incremental runs exactly its four batches, and its final flow is the weighted sum over
   the routes it reports.
   */
  lemma IncrementalLoadsEverything(net: Network, reqs: seq<Request>, bounds: seq<BatchRange>, run: seq<StepRecord>)
    requires IsRun(Incremental, net, reqs, bounds, run) && |run| > 0
    requires Stops(run[|run| - 1]) || |run| == MAX_ITERATIONS
    ensures |run| == 4 && |run[|run| - 1].routes| == |reqs|
    ensures run[|run| - 1].next == FlowOf(net.Size(), reqs, Paths(run[|run| - 1].routes))
  {
    BatchOf(net, reqs, bounds, run, |run| - 1);
    LoadedFlow(net, reqs, bounds, run, |run|);
  }
}
