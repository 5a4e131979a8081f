/** The iterative routers: one convergence loop, the averaging step of MSA and SO, and incremental loading. */
module Equilibrium {
  import opened Costs
  import opened Results
  import opened Graphs
  import opened Vectors
  import opened Assignment
  import opened Pricing
  import FanOut

  const GAP_TOLERANCE := 0.0001
  const MAX_ITERATIONS := 100
  const INCREMENTAL_BATCHES := 4
  const PARTIAL_LOAD_GAP := 1.0

  /** MSA averages on realized cost, system-optimal on marginal cost; incremental loads batch by batch. */
  datatype Strategy = Averaging(basis: Basis) | Incremental

  /** |tstt - sptt| / sptt, and 0 when there is no demand to misroute. */
  function RelativeGap(tstt: real, sptt: real): real {
    if sptt <= 0.0 then 0.0 else (if tstt < sptt then sptt - tstt else tstt - sptt) / sptt
  }

  // ---- batches

  datatype BatchRange = BatchRange(lo: nat, hi: nat)

  /** Where batch i starts when each takes `base` requests and the first `extra` of them one more. */
  function BatchStart(base: nat, extra: nat, i: nat): nat {
    if i == 0 then 0 else BatchStart(base, extra, i - 1) + base + if i - 1 < extra then 1 else 0
  }

  lemma {:induction false} BatchStartIs(base: nat, extra: nat, i: nat)
    ensures BatchStart(base, extra, i) == i * base + if i < extra then i else extra
  {
    if i > 0 {
      BatchStartIs(base, extra, i - 1);
      assert i * base == (i - 1) * base + base;
    }
  }

  lemma LastBatchEnds(n: nat, batches: nat)
    requires batches > 0
    ensures BatchStart(n / batches, n % batches, batches) == n
  {
    BatchStartIs(n / batches, n % batches, batches);
  }

  function RangeSize(r: BatchRange): int { r.hi - r.lo }

  /**
   The ranges are consecutive, start at 0 and end at n, and differ in size by at most one, the
   larger ones first.
   */
  ghost predicate Partitions(bounds: seq<BatchRange>, n: nat) {
    && |bounds| > 0 && bounds[0].lo == 0 && bounds[|bounds| - 1].hi == n
    && (forall i :: 0 <= i < |bounds| ==> bounds[i].lo <= bounds[i].hi <= n)
    && (forall i, j :: 0 <= i < |bounds| && j == i + 1 < |bounds| ==> bounds[i].hi == bounds[j].lo)
    && forall i, j :: 0 <= i < j < |bounds| ==>
         RangeSize(bounds[j]) <= RangeSize(bounds[i]) <= RangeSize(bounds[j]) + 1
  }

  method BatchBounds(n: nat, wanted: int) returns (bounds: seq<BatchRange>)
    ensures |bounds| == if wanted < 1 then 1 else wanted
    ensures Partitions(bounds, n)
  {
    var batches: nat := if wanted < 1 then 1 else wanted;
    bounds := ConsecutiveRanges(n / batches, n % batches, batches);
    LastBatchEnds(n, batches);
    RangesPartition(bounds, n / batches, n % batches, n);
  }

  function RangeOf(base: nat, extra: nat, i: nat): (r: BatchRange)
    ensures r.lo + base <= r.hi <= r.lo + base + 1
  {
    BatchRange(BatchStart(base, extra, i), BatchStart(base, extra, i + 1))
  }

  /** Advances a running offset by one batch size after another. */
  method ConsecutiveRanges(base: nat, extra: nat, batches: nat) returns (bounds: seq<BatchRange>)
    ensures |bounds| == batches && forall i :: 0 <= i < batches ==> bounds[i] == RangeOf(base, extra, i)
  {
    bounds := [];
    var at := 0;
    for i := 0 to batches
      invariant |bounds| == i && at == BatchStart(base, extra, i)
      invariant forall j :: 0 <= j < i ==> bounds[j] == RangeOf(base, extra, j)
    {
      var size := if i < extra then base + 1 else base;
      bounds := bounds + [BatchRange(at, at + size)];
      at := at + size;
    }
  }

  lemma RangesPartition(bounds: seq<BatchRange>, base: nat, extra: nat, n: nat)
    requires |bounds| > 0 && forall i :: 0 <= i < |bounds| ==> bounds[i] == RangeOf(base, extra, i)
    requires BatchStart(base, extra, |bounds|) == n
    ensures Partitions(bounds, n)
  {
    forall i | 0 <= i < |bounds|
      ensures bounds[i].lo <= bounds[i].hi <= n && RangeSize(bounds[i]) == base + if i < extra then 1 else 0
    {
      StartsMonotone(base, extra, i + 1, |bounds|);
    }
    forall i, j | 0 <= i < |bounds| && j == i + 1 < |bounds|
      ensures bounds[i].hi == bounds[j].lo
    {
    }
  }

  lemma {:induction false} StartsMonotone(base: nat, extra: nat, i: nat, j: nat)
    requires i <= j
    ensures BatchStart(base, extra, i) <= BatchStart(base, extra, j)
  {
    if i < j {
      StartsMonotone(base, extra, i, j - 1);
    }
  }

  // ---- one iteration

  /** One iteration: the flow it started from, its all-or-nothing outcome, and what it returned. */
  datatype StepRecord = StepRecord(
    flow: Vec, outcome: Outcome, next: Vec, routes: seq<Route>, gap: real, done: bool)

  ghost predicate AveragingStep(net: Network, basis: Basis, reqs: seq<Request>, k: nat, rec: StepRecord) {
    && k > 0 && |rec.flow| == net.Size()
    && IsAllOrNothing(net.g, reqs, WeightFromFlows(net.bpr, basis, rec.flow), rec.outcome)
    && rec.next == Blend(1.0 / k as real, rec.flow, rec.outcome.flows)
    && rec.routes == rec.outcome.routes
    && rec.gap == RelativeGap(Dot(rec.flow, Prices(net, basis, rec.flow)), rec.outcome.totalSP)
    && !rec.done
  }

  ghost predicate IncrementalStep(net: Network, reqs: seq<Request>, bounds: seq<BatchRange>, k: nat,
                                  before: seq<Route>, rec: StepRecord)
    requires Partitions(bounds, |reqs|) && 0 < k <= |bounds| && |before| == |reqs|
  {
    var lo, hi := bounds[k - 1].lo, bounds[k - 1].hi;
    && |rec.flow| == net.Size()
    && IsAllOrNothing(net.g, reqs[lo..hi], WeightFromFlows(net.bpr, Realized, rec.flow), rec.outcome)
    && rec.next == Add(rec.flow, rec.outcome.flows)
    && rec.routes == before[..lo] + rec.outcome.routes + before[hi..]
    && (rec.done <==> k == |bounds|)
    && (!rec.done ==> rec.gap == PARTIAL_LOAD_GAP)
    && (rec.done ==> exists all ::
          && IsAllOrNothing(net.g, reqs, WeightFromFlows(net.bpr, Realized, rec.next), all)
          && rec.gap == RelativeGap(TotalNetworkTime(net, rec.next), all.totalSP))
  }

  function NoRoutes(n: nat): (rs: seq<Route>)
    ensures |rs| == n
  {
    seq(n, _ => Route("", [], ZERO))
  }

  /** The k-th iteration (from 1) of a strategy, given the routes recorded before it. */
  ghost predicate IsStep(strategy: Strategy, net: Network, reqs: seq<Request>, bounds: seq<BatchRange>, k: nat,
                         before: seq<Route>, rec: StepRecord)
    requires Partitions(bounds, |reqs|) && |before| == |reqs|
  {
    match strategy
    case Averaging(basis) => AveragingStep(net, basis, reqs, k, rec)
    case Incremental => 0 < k <= |bounds| && IncrementalStep(net, reqs, bounds, k, before, rec)
  }

  ghost predicate Reachable(g: Graph, req: Request) {
    g.HasNode(req.src) && g.HasNode(req.dst) && exists p :: IsWalk(g, req.src, p, req.dst)
  }

  ghost predicate AllReachable(g: Graph, reqs: seq<Request>) {
    forall i :: 0 <= i < |reqs| ==> Reachable(g, reqs[i])
  }

  /** Flow-derived weights are finite, so a request is served exactly when its destination can be reached. */
  lemma ServedIffReachable(net: Network, basis: Basis, flows: Vec, req: Request)
    requires net.Valid()
    ensures Served(net.g, req, WeightFromFlows(net.bpr, basis, flows)) <==> Reachable(net.g, req)
  {
    if Reachable(net.g, req) {
      var p :| IsWalk(net.g, req.src, p, req.dst);
      WalkStaysInside(net.g, req.src, p, req.dst);
      PathCostIsPrice(net, basis, flows, p, |p|);
      assert p[..|p|] == p;
    }
  }

  method AverageInto(flow: Vec, target: Vec, k: nat) returns (next: array<real>)
    requires |flow| == |target| && k > 0
    ensures fresh(next) && next[..] == Blend(1.0 / k as real, flow, target)
  {
    var stepSize := 1.0 / k as real;
    next := new real[|flow|](_ => 0.0);
    for e := 0 to |flow|
      invariant forall i :: 0 <= i < e ==> next[i] == Blend(stepSize, flow, target)[i]
    {
      var x, y := flow[e], target[e];
      next[e] := x + stepSize * (y - x);
      BlendAt(stepSize, flow, target, e);
    }
  }

  method AddInto(flow: Vec, added: Vec) returns (next: array<real>)
    requires |flow| == |added|
    ensures fresh(next) && next[..] == Add(flow, added)
  {
    next := new real[|flow|](_ => 0.0);
    for e := 0 to |flow|
      invariant forall i :: 0 <= i < e ==> next[i] == flow[i] + added[i]
    {
      next[e] := flow[e] + added[e];
    }
  }

  lemma OutcomeSize(g: Graph, reqs: seq<Request>, w: Weight, o: Outcome)
    requires IsAllOrNothing(g, reqs, w, o)
    ensures |o.flows| == |g.edges|
  {
  }

  method Average(net: Network, basis: Basis, reqs: seq<Request>, k: nat, flow: Vec, processors: int)
    returns (r: Result<StepRecord, int>)
    requires net.Valid() && k > 0 && |flow| == net.Size()
    ensures r.Ok? ==> AveragingStep(net, basis, reqs, k, r.value) && r.value.flow == flow
    ensures r.Ok? <==> forall i :: 0 <= i < |reqs| ==> Served(net.g, reqs[i], WeightFromFlows(net.bpr, basis, flow))
    ensures r.Err? ==> 0 <= r.error < |reqs| && !Served(net.g, reqs[r.error], WeightFromFlows(net.bpr, basis, flow))
  {
    var weight := WeightFromFlows(net.bpr, basis, flow);
    var answer := FanOut.AssignAllOrNothing(net.g, reqs, weight, processors);
    if answer.Err? {
      return Err(answer.error);
    }
    var outcome := answer.value;
    OutcomeSize(net.g, reqs, weight, outcome);
    var next := AverageInto(flow, outcome.flows, k);
    var tstt := EdgeCostSum(net, basis, flow);
    return Ok(StepRecord(flow, outcome, next[..], outcome.routes, RelativeGap(tstt, outcome.totalSP), false));
  }

  method LoadBatch(net: Network, reqs: seq<Request>, bounds: seq<BatchRange>, k: nat, flow: Vec,
                   before: seq<Route>, processors: int)
    returns (r: Result<StepRecord, int>)
    requires net.Valid() && Partitions(bounds, |reqs|) && 0 < k <= |bounds| && |before| == |reqs|
    requires |flow| == net.Size()
    ensures r.Ok? ==> IncrementalStep(net, reqs, bounds, k, before, r.value) && r.value.flow == flow
    ensures r.Err? ==> 0 <= r.error < |reqs| && !Reachable(net.g, reqs[r.error])
    ensures r.Ok? && k == |bounds| ==> AllReachable(net.g, reqs)
  {
    var lo, hi := bounds[k - 1].lo, bounds[k - 1].hi;
    var weight := WeightFromFlows(net.bpr, Realized, flow);
    var answer := FanOut.AssignAllOrNothing(net.g, reqs[lo..hi], weight, processors);
    if answer.Err? {
      ServedIffReachable(net, Realized, flow, reqs[lo + answer.error]);
      return Err(lo + answer.error);
    }
    var outcome := answer.value;
    OutcomeSize(net.g, reqs[lo..hi], weight, outcome);
    var routes := before[..lo] + outcome.routes + before[hi..];
    var next := AddInto(flow, outcome.flows);
    if k != |bounds| {
      return Ok(StepRecord(flow, outcome, next[..], routes, PARTIAL_LOAD_GAP, false));
    }
    var all := FanOut.AssignAllOrNothing(net.g, reqs, WeightFromFlows(net.bpr, Realized, next[..]), processors);
    forall i | 0 <= i < |reqs|
      ensures Served(net.g, reqs[i], WeightFromFlows(net.bpr, Realized, next[..])) <==> Reachable(net.g, reqs[i])
    {
      ServedIffReachable(net, Realized, next[..], reqs[i]);
    }
    if all.Err? {
      return Err(all.error);
    }
    var tstt := EdgeCostSum(net, Realized, next[..]);
    return Ok(StepRecord(flow, outcome, next[..], routes, RelativeGap(tstt, all.value.totalSP), true));
  }

  method Step(strategy: Strategy, net: Network, reqs: seq<Request>, bounds: seq<BatchRange>, k: nat, flow: Vec,
              before: seq<Route>, processors: int)
    returns (r: Result<StepRecord, int>)
    requires net.Valid() && Partitions(bounds, |reqs|) && k > 0 && |before| == |reqs|
    requires |flow| == net.Size() && (strategy.Incremental? ==> k <= |bounds|)
    ensures r.Ok? ==> IsStep(strategy, net, reqs, bounds, k, before, r.value) && r.value.flow == flow
    ensures r.Ok? && (strategy.Averaging? || r.value.done) ==> AllReachable(net.g, reqs)
    ensures r.Ok? && strategy.Incremental? && k == |bounds| ==> r.value.done
    ensures r.Err? ==> 0 <= r.error < |reqs| && !Reachable(net.g, reqs[r.error])
  {
    match strategy
    case Averaging(basis) =>
      r := Average(net, basis, reqs, k, flow, processors);
      forall i | 0 <= i < |reqs|
        ensures Served(net.g, reqs[i], WeightFromFlows(net.bpr, basis, flow)) <==> Reachable(net.g, reqs[i])
      {
        ServedIffReachable(net, basis, flow, reqs[i]);
      }
    case Incremental =>
      r := LoadBatch(net, reqs, bounds, k, flow, before, processors);
  }

  // ---- the convergence loop

  datatype AssignResult = AssignResult(
    routes: seq<Route>, finalFlows: Vec, gap: real, iters: nat, converged: bool)

  predicate Stops(rec: StepRecord) { rec.gap < GAP_TOLERANCE || rec.done }

  function RoutesBefore(reqs: seq<Request>, run: seq<StepRecord>, j: nat): seq<Route>
    requires j <= |run|
  {
    if j == 0 then NoRoutes(|reqs|) else run[j - 1].routes
  }

  function FlowEntering(net: Network, run: seq<StepRecord>, j: nat): Vec
    requires j <= |run|
  {
    if j == 0 then Zeros(net.Size()) else run[j - 1].next
  }

  /** Iteration j starts from the flow and routes the one before it returned. */
  ghost predicate LinkOk(strategy: Strategy, net: Network, reqs: seq<Request>, bounds: seq<BatchRange>, j: nat,
                         flow: Vec, before: seq<Route>, rec: StepRecord)
    requires Partitions(bounds, |reqs|)
  {
    && |before| == |rec.routes| == |reqs| && |rec.next| == net.Size() && rec.flow == flow
    && IsStep(strategy, net, reqs, bounds, j + 1, before, rec)
  }

  ghost predicate LinkedAt(strategy: Strategy, net: Network, reqs: seq<Request>, bounds: seq<BatchRange>,
                           run: seq<StepRecord>, j: nat)
    requires Partitions(bounds, |reqs|) && j < |run|
  {
    LinkOk(strategy, net, reqs, bounds, j, FlowEntering(net, run, j), RoutesBefore(reqs, run, j), run[j])
  }

  /** A sequence of linked iterations, of which only the last may stop the loop. */
  ghost predicate IsRun(strategy: Strategy, net: Network, reqs: seq<Request>, bounds: seq<BatchRange>, run: seq<StepRecord>) {
    && Partitions(bounds, |reqs|) && |bounds| == INCREMENTAL_BATCHES
    && |run| <= MAX_ITERATIONS
    && (forall j :: 0 <= j < |run| ==> LinkedAt(strategy, net, reqs, bounds, run, j))
    && (forall j :: 0 <= j < |run| - 1 ==> !Stops(run[j]))
  }

  lemma StepSizes(strategy: Strategy, net: Network, reqs: seq<Request>, bounds: seq<BatchRange>, k: nat,
                  before: seq<Route>, rec: StepRecord)
    requires Partitions(bounds, |reqs|) && |before| == |reqs| && IsStep(strategy, net, reqs, bounds, k, before, rec)
    ensures |rec.routes| == |reqs| && |rec.next| == net.Size()
  {
  }

  lemma RunSnoc(strategy: Strategy, net: Network, reqs: seq<Request>, bounds: seq<BatchRange>,
                run: seq<StepRecord>, rec: StepRecord)
    requires IsRun(strategy, net, reqs, bounds, run) && |run| < MAX_ITERATIONS
    requires |run| > 0 ==> !Stops(run[|run| - 1])
    requires rec.flow == FlowEntering(net, run, |run|)
    requires |RoutesBefore(reqs, run, |run|)| == |reqs|
    requires IsStep(strategy, net, reqs, bounds, |run| + 1, RoutesBefore(reqs, run, |run|), rec)
    ensures IsRun(strategy, net, reqs, bounds, run + [rec])
  {
    var run' := run + [rec];
    StepSizes(strategy, net, reqs, bounds, |run| + 1, RoutesBefore(reqs, run, |run|), rec);
    forall j | 0 <= j <= |run|
      ensures LinkedAt(strategy, net, reqs, bounds, run', j)
    {
      assert j < |run| ==> LinkedAt(strategy, net, reqs, bounds, run, j);
      assert RoutesBefore(reqs, run', j) == RoutesBefore(reqs, run, j);
      assert FlowEntering(net, run', j) == FlowEntering(net, run, j);
      assert j < |run| ==> run'[j] == run[j];
    }
  }

  /** Runs one more iteration of an unstopped run. */
  method Extend(strategy: Strategy, net: Network, reqs: seq<Request>, bounds: seq<BatchRange>, k: nat, flow: Vec,
                routes: seq<Route>, processors: int, ghost run: seq<StepRecord>)
    returns (r: Result<StepRecord, int>)
    requires net.Valid() && |run| == k - 1 < MAX_ITERATIONS && |flow| == net.Size() && |routes| == |reqs|
    requires IsRun(strategy, net, reqs, bounds, run) && (k > 1 ==> !Stops(run[k - 2]))
    requires flow == FlowEntering(net, run, k - 1) && routes == RoutesBefore(reqs, run, k - 1)
    requires strategy.Incremental? ==> k <= |bounds|
    ensures r.Ok? ==>
      && IsRun(strategy, net, reqs, bounds, run + [r.value])
      && |r.value.next| == net.Size() && |r.value.routes| == |reqs|
    ensures r.Ok? && (strategy.Averaging? || r.value.done) ==> AllReachable(net.g, reqs)
    ensures r.Ok? && strategy.Incremental? ==> (k == |bounds| <==> r.value.done)
    ensures r.Ok? && strategy.Incremental? && k < |bounds| ==> !Stops(r.value)
    ensures r.Err? ==> !AllReachable(net.g, reqs)
  {
    r := Step(strategy, net, reqs, bounds, k, flow, routes, processors);
    if r.Ok? {
      StepSizes(strategy, net, reqs, bounds, k, routes, r.value);
      RunSnoc(strategy, net, reqs, bounds, run, r.value);
    }
  }

  /** Iterates until the gap is below tolerance, the strategy is done, or the budget is spent. */
  method Assign(strategy: Strategy, net: Network, reqs: seq<Request>, processors: int)
    returns (r: Result<AssignResult, int>, ghost bounds: seq<BatchRange>, ghost run: seq<StepRecord>)
    requires net.Valid()
    ensures r.Ok? <==> AllReachable(net.g, reqs)
    ensures r.Ok? ==> IsRun(strategy, net, reqs, bounds, run) && |run| > 0
    ensures r.Ok? ==> var last := run[|run| - 1];
      && (Stops(last) || |run| == MAX_ITERATIONS)
      && r.value == AssignResult(last.routes, last.next, last.gap, |run|, Stops(last))
      && (r.value.converged <==> last.gap < 0.0001 || last.done)
      && r.value.iters <= 100 && (!r.value.converged ==> r.value.iters == 100)
  {
    var ranges := BatchBounds(|reqs|, INCREMENTAL_BATCHES);
    bounds, run := ranges, [];
    var flow, routes, gap := Zeros(net.Size()), NoRoutes(|reqs|), 0.0;
    for k := 1 to MAX_ITERATIONS + 1
      invariant |run| == k - 1 && IsRun(strategy, net, reqs, bounds, run)
      invariant flow == FlowEntering(net, run, k - 1) && |flow| == net.Size()
      invariant routes == RoutesBefore(reqs, run, k - 1) && |routes| == |reqs|
      invariant k > 1 ==> gap == run[k - 2].gap && !Stops(run[k - 2])
      invariant strategy.Incremental? ==> k <= |bounds|
      invariant strategy.Averaging? && k > 1 ==> AllReachable(net.g, reqs)
    {
      var stepped := Extend(strategy, net, reqs, ranges, k, flow, routes, processors, run);
      if stepped.Err? {
        return Err(stepped.error), bounds, run;
      }
      var rec := stepped.value;
      run := run + [rec];
      flow, routes, gap := rec.next, rec.routes, rec.gap;
      if Stops(rec) {
        return Ok(AssignResult(routes, flow, gap, k, true)), bounds, run;
      }
    }
    return Ok(AssignResult(routes, flow, gap, MAX_ITERATIONS, false)), bounds, run;
  }
}
