/** When the flow a router reports is the flow of the routes it reports. */
module ReportedFlows {
  import opened Costs
  import opened Graphs
  import opened Vectors
  import opened Assignment
  import opened Pricing
  import opened Equilibrium
  import opened RunTheorems
  import Bpr

  /** The reported flow is the weighted sum over the reported routes: what the result's comment says of it. */
  ghost predicate FlowIsOfRoutes(net: Network, reqs: seq<Request>, last: StepRecord)
    requires |last.routes| == |reqs|
  {
    last.next == FlowOf(net.Size(), reqs, Paths(last.routes))
  }

  lemma BlendLandsAt(t: real, x: real, y: real)
    requires t < 1.0
    ensures x + t * (y - x) == y <==> x == y
  {
    assert x + t * (y - x) - y == (1.0 - t) * (x - y);
    if x + t * (y - x) == y {
      ZeroFactor(1.0 - t, x - y);
    }
  }

  lemma ZeroFactor(a: real, b: real)
    requires a > 0.0 && a * b == 0.0
    ensures b == 0.0
  {
  }

  /** A step short of the whole way ends at its target only from the target. */
  lemma BlendLands(t: real, x: Vec, y: Vec)
    requires |x| == |y| && t < 1.0
    ensures Blend(t, x, y) == y <==> x == y
  {
    forall e | 0 <= e < |x|
      ensures Blend(t, x, y)[e] == y[e] <==> x[e] == y[e]
    {
      BlendAt(t, x, y, e);
      BlendLandsAt(t, x[e], y[e]);
    }
    if Blend(t, x, y) == y {
      assert forall e :: 0 <= e < |x| ==> Blend(t, x, y)[e] == y[e];
    } else {
      assert exists e :: 0 <= e < |x| && Blend(t, x, y)[e] != y[e];
    }
  }

  /** The k-th step ends at its target when it is the first, or starts there, and only then. */
  lemma StepLandsIff(k: nat, t: real, x: Vec, y: Vec)
    requires k > 0 && t == 1.0 / k as real && |x| == |y|
    ensures Blend(t, x, y) == y <==> k == 1 || x == y
  {
    Reciprocal(k, t);
    if k == 1 {
      BlendWhole(x, y);
    } else {
      BlendLands(t, x, y);
    }
  }

  /**
   An averaging run reports the flow of its routes exactly when it made a single step, or its
   last step moved nothing.
   */
  lemma AveragedFlowIsOfRoutesIff(net: Network, basis: Basis, reqs: seq<Request>, bounds: seq<BatchRange>,
                                  run: seq<StepRecord>)
    requires IsRun(Averaging(basis), net, reqs, bounds, run) && |run| > 0
    ensures var last := run[|run| - 1];
      && |last.routes| == |reqs|
      && (FlowIsOfRoutes(net, reqs, last) <==> |run| == 1 || last.flow == last.outcome.flows)
  {
    var k, last := |run|, run[|run| - 1];
    TargetIsOfRoutes(net, basis, reqs, bounds, run, k - 1);
    StepBlends(net, basis, reqs, bounds, run, k);
    StepLandsIff(k, 1.0 / k as real, last.flow, last.outcome.flows);
  }

  /** What a step moves toward is the flow of the routes it reports. */
  lemma TargetIsOfRoutes(net: Network, basis: Basis, reqs: seq<Request>, bounds: seq<BatchRange>,
                         run: seq<StepRecord>, j: nat)
    requires IsRun(Averaging(basis), net, reqs, bounds, run) && j < |run|
    ensures |run[j].routes| == |reqs|
    ensures run[j].outcome.flows == FlowOf(net.Size(), reqs, Paths(run[j].routes))
  {
    StepOf(net, basis, reqs, bounds, run, j);
  }

  // ---- runs that stand still

  /** A step that moves nothing has no gap: such a run ends there. */
  lemma StandingStillStops(net: Network, basis: Basis, reqs: seq<Request>, bounds: seq<BatchRange>,
                           run: seq<StepRecord>, j: nat)
    requires net.Valid() && IsRun(Averaging(basis), net, reqs, bounds, run) && j < |run|
    requires run[j].flow == run[j].outcome.flows
    ensures run[j].gap == 0.0 && j == |run| - 1
  {
    StepOf(net, basis, reqs, bounds, run, j);
    StandingStillHasNoGap(net, basis, reqs, j + 1, run[j]);
    assert Stops(run[j]);
  }

  lemma StandingStillHasNoGap(net: Network, basis: Basis, reqs: seq<Request>, k: nat, rec: StepRecord)
    requires net.Valid() && AveragingStep(net, basis, reqs, k, rec) && rec.flow == rec.outcome.flows
    ensures rec.gap == 0.0
  {
    AllOrNothingPriced(net, basis, reqs, rec.flow, rec.outcome);
  }

  // ---- requests without a choice

  /** At most one loopless path serves the request. */
  ghost predicate OnePath(g: Graph, req: Request) {
    forall p, q :: IsPath(g, req.src, p, req.dst) && IsPath(g, req.src, q, req.dst) ==> p == q
  }

  lemma SameRouting(net: Network, reqs: seq<Request>, v: Weight, w: Weight, a: Outcome, b: Outcome)
    requires IsAllOrNothing(net.g, reqs, v, a) && IsAllOrNothing(net.g, reqs, w, b)
    requires forall i :: 0 <= i < |reqs| ==> OnePath(net.g, reqs[i])
    ensures a.flows == b.flows
  {
    forall i | 0 <= i < |reqs|
      ensures Paths(a.routes)[i] == Paths(b.routes)[i]
    {
      assert Cheapest(net.g, reqs[i], v, a.routes[i]) && Cheapest(net.g, reqs[i], w, b.routes[i]);
    }
    assert Paths(a.routes) == Paths(b.routes);
  }

  /**
   When no request has a choice of loopless paths, an averaging run takes at most two steps and
   reports the flow of its routes.
   */
  lemma WithoutChoiceFlowIsOfRoutes(net: Network, basis: Basis, reqs: seq<Request>, bounds: seq<BatchRange>,
                                    run: seq<StepRecord>)
    requires net.Valid() && IsRun(Averaging(basis), net, reqs, bounds, run) && |run| > 0
    requires forall i :: 0 <= i < |reqs| ==> OnePath(net.g, reqs[i])
    ensures var last := run[|run| - 1];
      |run| <= 2 && |last.routes| == |reqs| && FlowIsOfRoutes(net, reqs, last)
  {
    AveragedFlowIsOfRoutesIff(net, basis, reqs, bounds, run);
    if |run| > 1 {
      SecondStepStands(net, basis, reqs, bounds, run);
      StandingStillStops(net, basis, reqs, bounds, run, 1);
    }
  }

  lemma SecondStepStands(net: Network, basis: Basis, reqs: seq<Request>, bounds: seq<BatchRange>, run: seq<StepRecord>)
    requires IsRun(Averaging(basis), net, reqs, bounds, run) && |run| > 1
    requires forall i :: 0 <= i < |reqs| ==> OnePath(net.g, reqs[i])
    ensures run[1].flow == run[1].outcome.flows
  {
    StepBlends(net, basis, reqs, bounds, run, 2);
    FirstStepArrives(net, basis, reqs, bounds, run);
    SameTargets(net, basis, reqs, bounds, run, 0, 1);
  }

  lemma FirstStepArrives(net: Network, basis: Basis, reqs: seq<Request>, bounds: seq<BatchRange>, run: seq<StepRecord>)
    requires IsRun(Averaging(basis), net, reqs, bounds, run) && |run| > 0
    ensures run[0].next == run[0].outcome.flows
  {
    StepBlends(net, basis, reqs, bounds, run, 1);
    StepLandsIff(1, 1.0 / 1 as real, run[0].flow, run[0].outcome.flows);
  }

  lemma SameTargets(net: Network, basis: Basis, reqs: seq<Request>, bounds: seq<BatchRange>, run: seq<StepRecord>,
                    i: nat, j: nat)
    requires IsRun(Averaging(basis), net, reqs, bounds, run) && i < |run| && j < |run|
    requires forall r :: 0 <= r < |reqs| ==> OnePath(net.g, reqs[r])
    ensures run[i].outcome.flows == run[j].outcome.flows
  {
    StepOf(net, basis, reqs, bounds, run, i);
    StepOf(net, basis, reqs, bounds, run, j);
    SameRouting(net, reqs, WeightFromFlows(net.bpr, basis, run[i].flow), WeightFromFlows(net.bpr, basis, run[j].flow),
                run[i].outcome, run[j].outcome);
  }

  // ---- a run whose flow is not that of its routes

  const LINK := Edge(0, "0:0:f", 0, 1, 1000.0, 1.0, 1.0)

  /** Two like links side by side. */
  const TWIN := Graph([Node(0, LatLon(0.0, 0.0)), Node(1, LatLon(0.0, 0.01))], [LINK, LINK.(id := 1, segment := "1:0:f")])

  lemma TwinIsValid()
    ensures TWIN.Valid() && forall e :: TWIN.HasEdge(e) ==> TWIN.edges[e].freeFlowS == 1.0
  {
    assert TWIN.nodes[0].id == 0 && TWIN.nodes[1].id == 1;
    assert TWIN.edges[0] == LINK && TWIN.edges[1] == LINK.(id := 1, segment := "1:0:f");
  }

  const TRIP := Request("trip", 0, 1, 1.0)

  const QUARTERS := [BatchRange(0, 1), BatchRange(1, 1), BatchRange(1, 1), BatchRange(1, 1)]

  /** What either link charges under a load. */
  function LinkPrice(bpr: Bpr.Bpr, basis: Basis, load: real): real {
    EdgePrice(bpr, basis, LINK, load)
  }

  /** The trip sent over one link at a price. */
  function Via(link: nat, price: NonNegative): Outcome {
    Outcome([Route("trip", [link], Fin(price))], Only(link), price)
  }

  function Only(link: nat): (z: Vec)
    ensures |z| == 2
  {
    if link == 0 then [1.0, 0.0] else [0.0, 1.0]
  }

  lemma TwinPrices(bpr: Bpr.Bpr, basis: Basis, flow: Vec)
    requires |flow| == 2
    ensures Prices(Network(TWIN, bpr), basis, flow) == [LinkPrice(bpr, basis, flow[0]), LinkPrice(bpr, basis, flow[1])]
  {
    var prices := Prices(Network(TWIN, bpr), basis, flow);
    assert prices[0] == LinkPrice(bpr, basis, flow[0]) && prices[1] == LinkPrice(bpr, basis, flow[1]);
  }

  lemma TwinWeight(bpr: Bpr.Bpr, basis: Basis, flow: Vec, link: nat)
    requires |flow| == 2 && link < 2
    ensures WeightFromFlows(bpr, basis, flow)(TWIN.edges[link]) == AsCost(LinkPrice(bpr, basis, flow[link]))
  {
  }

  lemma TwinEnds(p: seq<int>)
    requires IsWalk(TWIN, 0, p, 1)
    ensures |p| > 0 && 0 <= p[|p| - 1] < 2
  {
    WalkEdge(TWIN, 0, p, 1, |p| - 1);
  }

  /** Every way from one end to the other ends with one of the links, so it costs at least that link. */
  lemma TwinWalk(w: Weight, p: seq<int>, least: Cost)
    requires IsWalk(TWIN, 0, p, 1) && Leq(least, w(TWIN.edges[0])) && Leq(least, w(TWIN.edges[1]))
    ensures Leq(least, PathCost(TWIN, w, p))
  {
    TwinEnds(p);
    assert PathCost(TWIN, w, p) == Plus(PathCost(TWIN, w, p[..|p| - 1]), w(TWIN.edges[p[|p| - 1]]));
  }

  lemma TwinPath(w: Weight, link: nat)
    requires link < 2
    ensures IsPath(TWIN, 0, [link], 1) && PathCost(TWIN, w, [link]) == w(TWIN.edges[link])
  {
    assert NodeAt(TWIN, 0, [link], 0) == 0 && NodeAt(TWIN, 0, [link], 1) == 1;
    CostOfSnoc(TWIN, w, [], link);
    assert [] + [link] == [link];
  }

  lemma TwinFlow(link: nat)
    requires link < 2
    ensures FlowOf(2, [TRIP], [[link]]) == Only(link)
  {
    assert AddRouteBelow(Zeros(2), [link], 1.0, 1) == Bump(AddRouteBelow(Zeros(2), [link], 1.0, 0), link, 1.0);
    assert FlowBelow(2, [TRIP], [[link]], 1) == AddRoute(FlowBelow(2, [TRIP], [[link]], 0), [link], 1.0);
  }

  lemma ViaIsAllOrNothing(w: Weight, link: nat, price: NonNegative)
    requires link < 2 && w(TWIN.edges[link]) == Fin(price) && Leq(Fin(price), w(TWIN.edges[1 - link]))
    ensures IsAllOrNothing(TWIN, [TRIP], w, Via(link, price))
  {
    var o := Via(link, price);
    forall p | IsWalk(TWIN, 0, p, 1)
      ensures Leq(Fin(price), PathCost(TWIN, w, p))
    {
      TwinWalk(w, p, Fin(price));
    }
    TwinPath(w, link);
    assert Cheapest(TWIN, TRIP, w, o.routes[0]);
    assert Paths(o.routes) == [[link]];
    TwinFlow(link);
    assert SumReals(Charges([TRIP], o.routes), 1) == SumReals(Charges([TRIP], o.routes), 0) + price;
  }

  lemma TwinDot(x: Vec, prices: Vec, a: real, b: real)
    requires |x| == 2 && prices == [a, b]
    ensures Dot(x, prices) == x[0] * a + x[1] * b
  {
    assert DotBelow(x, prices, 1) == DotBelow(x, prices, 0) + x[0] * a;
  }

  lemma TwinBlend(t: real, x: Vec, y: Vec, next: Vec)
    requires |x| == |y| == |next| == 2
    requires next[0] == x[0] + t * (y[0] - x[0]) && next[1] == x[1] + t * (y[1] - x[1])
    ensures Blend(t, x, y) == next
  {
    BlendAt(t, x, y, 0);
    BlendAt(t, x, y, 1);
    assert Blend(t, x, y)[0] == next[0] && Blend(t, x, y)[1] == next[1];
  }

  /** One averaging step on the twin network. */
  function TwinStep(flow: Vec, link: nat, price: NonNegative, next: Vec, gap: real): StepRecord {
    StepRecord(flow, Via(link, price), next, Via(link, price).routes, gap, false)
  }

  /** a and b are what the two links charge under a flow. */
  ghost predicate Charging(bpr: Bpr.Bpr, basis: Basis, flow: Vec, a: real, b: real)
    requires |flow| == 2
  {
    LinkPrice(bpr, basis, flow[0]) == a && LinkPrice(bpr, basis, flow[1]) == b
  }

  lemma TwinTotal(bpr: Bpr.Bpr, basis: Basis, flow: Vec, a: real, b: real)
    requires |flow| == 2 && Charging(bpr, basis, flow, a, b)
    ensures Dot(flow, Prices(Network(TWIN, bpr), basis, flow)) == flow[0] * a + flow[1] * b
  {
    TwinPrices(bpr, basis, flow);
    TwinDot(flow, Prices(Network(TWIN, bpr), basis, flow), a, b);
  }

  lemma TwinOutcome(bpr: Bpr.Bpr, basis: Basis, flow: Vec, link: nat, a: NonNegative, b: NonNegative)
    requires |flow| == 2 && Charging(bpr, basis, flow, a, b) && link < 2 && (if link == 0 then a <= b else b <= a)
    ensures IsAllOrNothing(TWIN, [TRIP], WeightFromFlows(bpr, basis, flow), Via(link, if link == 0 then a else b))
  {
    TwinWeight(bpr, basis, flow, 0);
    TwinWeight(bpr, basis, flow, 1);
    ViaIsAllOrNothing(WeightFromFlows(bpr, basis, flow), link, if link == 0 then a else b);
  }

  lemma TwinStepOk(bpr: Bpr.Bpr, basis: Basis, k: nat, flow: Vec, link: nat, a: NonNegative, b: NonNegative, next: Vec,
                   gap: real)
    requires k > 0 && |flow| == 2 && Charging(bpr, basis, flow, a, b) && link < 2
    requires if link == 0 then a <= b else b <= a
    requires next == Blend(1.0 / k as real, flow, Only(link))
    requires gap == RelativeGap(flow[0] * a + flow[1] * b, if link == 0 then a else b)
    ensures AveragingStep(Network(TWIN, bpr), basis, [TRIP], k,
                          TwinStep(flow, link, if link == 0 then a else b, next, gap))
  {
    TwinOutcome(bpr, basis, flow, link, a, b);
    TwinTotal(bpr, basis, flow, a, b);
  }

  // The trip over one link, then over the other, then over the first again, where the loop stops.

  const FIRST := TwinStep([0.0, 0.0], 0, 1.0, [1.0, 0.0], 1.0)

  function Second(gap: real): StepRecord { TwinStep([1.0, 0.0], 1, 1.0, [0.5, 0.5], gap) }

  function Third(half: NonNegative): StepRecord { TwinStep([0.5, 0.5], 0, half, [2.0 / 3.0, 1.0 / 3.0], 0.0) }

  function TwinRun(half: NonNegative, gap: real): (run: seq<StepRecord>)
    ensures |run| == 3
  {
    [FIRST, Second(gap), Third(half)]
  }

  lemma FirstOk(bpr: Bpr.Bpr, basis: Basis)
    requires LinkPrice(bpr, basis, 0.0) == 1.0
    ensures AveragingStep(Network(TWIN, bpr), basis, [TRIP], 1, FIRST)
  {
    TwinBlend(1.0, [0.0, 0.0], Only(0), [1.0, 0.0]);
    TwinStepOk(bpr, basis, 1, [0.0, 0.0], 0, 1.0, 1.0, [1.0, 0.0], 1.0);
  }

  lemma SecondOk(bpr: Bpr.Bpr, basis: Basis, full: NonNegative)
    requires LinkPrice(bpr, basis, 0.0) == 1.0 && LinkPrice(bpr, basis, 1.0) == full >= 1.0
    ensures AveragingStep(Network(TWIN, bpr), basis, [TRIP], 2, Second(full - 1.0))
  {
    TwinBlend(1.0 / 2.0, [1.0, 0.0], Only(1), [0.5, 0.5]);
    TwinStepOk(bpr, basis, 2, [1.0, 0.0], 1, full, 1.0, [0.5, 0.5], full - 1.0);
  }

  lemma ThirdOk(bpr: Bpr.Bpr, basis: Basis, half: NonNegative)
    requires LinkPrice(bpr, basis, 0.5) == half > 0.0
    ensures AveragingStep(Network(TWIN, bpr), basis, [TRIP], 3, Third(half))
  {
    TwinBlend(1.0 / 3.0, [0.5, 0.5], Only(0), [2.0 / 3.0, 1.0 / 3.0]);
    TwinStepOk(bpr, basis, 3, [0.5, 0.5], 0, half, half, [2.0 / 3.0, 1.0 / 3.0], 0.0);
  }

  ghost predicate TwinSteps(bpr: Bpr.Bpr, basis: Basis, run: seq<StepRecord>) {
    forall j :: 0 <= j < |run| ==> TwinStepAt(bpr, basis, run, j)
  }

  ghost predicate TwinStepAt(bpr: Bpr.Bpr, basis: Basis, run: seq<StepRecord>, j: nat)
    requires j < |run|
  {
    AveragingStep(Network(TWIN, bpr), basis, [TRIP], j + 1, run[j])
  }

  lemma TwinRunSteps(bpr: Bpr.Bpr, basis: Basis, half: NonNegative, full: NonNegative)
    requires LinkPrice(bpr, basis, 0.0) == 1.0
    requires LinkPrice(bpr, basis, 0.5) == half >= 1.0 && LinkPrice(bpr, basis, 1.0) == full >= 1.0
    ensures TwinSteps(bpr, basis, TwinRun(half, full - 1.0))
  {
    var run := TwinRun(half, full - 1.0);
    FirstOk(bpr, basis);
    SecondOk(bpr, basis, full);
    ThirdOk(bpr, basis, half);
    assert TwinStepAt(bpr, basis, run, 0) && TwinStepAt(bpr, basis, run, 1) && TwinStepAt(bpr, basis, run, 2);
  }

  lemma TwinRunLinked(bpr: Bpr.Bpr, basis: Basis, run: seq<StepRecord>, half: NonNegative, gap: real)
    requires run == TwinRun(half, gap) && gap >= GAP_TOLERANCE && TwinSteps(bpr, basis, run)
    ensures IsRun(Averaging(basis), Network(TWIN, bpr), [TRIP], QUARTERS, run)
  {
    var net := Network(TWIN, bpr);
    QuartersPartition();
    assert Zeros(2) == [0.0, 0.0];
    forall j | 0 <= j < 3
      ensures LinkedAt(Averaging(basis), net, [TRIP], QUARTERS, run, j)
    {
      assert TwinStepAt(bpr, basis, run, j);
    }
  }

  lemma QuartersPartition()
    ensures Partitions(QUARTERS, 1) && |QUARTERS| == INCREMENTAL_BATCHES
  {
  }

  /** Coefficients under which a full link is noticeably dearer than an empty one; the engine's 0.15 and 4 are such. */
  predicate Congesting(bpr: Bpr.Bpr) {
    bpr.alpha >= GAP_TOLERANCE && bpr.beta > 0 && bpr.capacityScale == 1.0
  }

  lemma PriceOfLoad(bpr: Bpr.Bpr, basis: Basis, load: real, p: real)
    requires load >= 0.0 && bpr.capacityScale == 1.0 && Bpr.Pow(load, bpr.beta) == p
    ensures LinkPrice(bpr, basis, load) == Congested(if basis == Realized then bpr.alpha else MarginalAlpha(bpr), p)
  {
    assert bpr.Capacity(LINK) == 1.0 && bpr.Ratio(LINK, load) == load;
  }

  function Congested(alpha: real, p: real): real { 1.0 + alpha * p }

  function MarginalAlpha(bpr: Bpr.Bpr): real { bpr.alpha * (bpr.beta + 1) as real }

  lemma CongestedPrices(alpha: real, p: real)
    requires alpha >= 0.0 && p >= 0.0
    ensures Congested(alpha, 0.0) == 1.0 && Congested(alpha, p) >= 1.0 && Congested(alpha, 1.0) == 1.0 + alpha
  {
    Bpr.MulNonNegative(alpha, p);
  }

  lemma MarginalAlphaIsMore(bpr: Bpr.Bpr)
    requires bpr.alpha >= 0.0
    ensures MarginalAlpha(bpr) >= bpr.alpha
  {
    Bpr.MulNonNegative(bpr.alpha, bpr.beta as real);
    assert MarginalAlpha(bpr) == bpr.alpha + bpr.alpha * bpr.beta as real;
  }

  lemma LinkPrices(bpr: Bpr.Bpr, basis: Basis)
    requires Congesting(bpr)
    ensures LinkPrice(bpr, basis, 0.0) == 1.0
    ensures LinkPrice(bpr, basis, 0.5) >= 1.0 && LinkPrice(bpr, basis, 1.0) >= 1.0 + GAP_TOLERANCE
  {
    var half := Bpr.Pow(0.5, bpr.beta);
    PowOfZero(bpr.beta);
    PowOfOne(bpr.beta);
    Bpr.PowNonNegative(0.5, bpr.beta);
    MarginalAlphaIsMore(bpr);
    PriceOfLoad(bpr, basis, 0.0, 0.0);
    PriceOfLoad(bpr, basis, 1.0, 1.0);
    PriceOfLoad(bpr, basis, 0.5, half);
    CongestedPrices(if basis == Realized then bpr.alpha else MarginalAlpha(bpr), half);
  }

  lemma PowOfZero(n: nat)
    requires n > 0
    ensures Bpr.Pow(0.0, n) == 0.0
  {
  }

  lemma {:induction false} PowOfOne(n: nat)
    ensures Bpr.Pow(1.0, n) == 1.0
  {
    if n > 0 {
      PowOfOne(n - 1);
    }
  }

  /**
   Two like links and one trip: either averaging router stops in its third iteration and reports
   the trip on one link while its flow has a third of it on the other.
   */
  lemma AveragedFlowCanDiffer(bpr: Bpr.Bpr, basis: Basis) returns (net: Network, run: seq<StepRecord>)
    requires Congesting(bpr)
    ensures net == Network(TWIN, bpr) && net.Valid()
    ensures IsRun(Averaging(basis), net, [TRIP], QUARTERS, run) && |run| == 3 && Stops(run[2])
    ensures run[2].next == [2.0 / 3.0, 1.0 / 3.0] && Paths(run[2].routes) == [[0]]
    ensures |run[2].routes| == 1 && !FlowIsOfRoutes(net, [TRIP], run[2])
  {
    net := Network(TWIN, bpr);
    TwinIsValid();
    LinkPrices(bpr, basis);
    var half, full := LinkPrice(bpr, basis, 0.5), LinkPrice(bpr, basis, 1.0);
    run := TwinRun(half, full - 1.0);
    TwinRunSteps(bpr, basis, half, full);
    TwinRunLinked(bpr, basis, run, half, full - 1.0);
    TwinRunDiffers(net, run, half, full - 1.0);
  }

  lemma TwinRunDiffers(net: Network, run: seq<StepRecord>, half: NonNegative, gap: real)
    requires net.g == TWIN && run == TwinRun(half, gap)
    ensures run[2].next == [2.0 / 3.0, 1.0 / 3.0] && Paths(run[2].routes) == [[0]]
    ensures |run[2].routes| == 1 && !FlowIsOfRoutes(net, [TRIP], run[2])
  {
    assert Paths(run[2].routes) == [[0]];
    TwinFlow(0);
    assert run[2].next[1] != Only(0)[1];
  }
}
