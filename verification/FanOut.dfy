/**
 The concurrent all-or-nothing assignment: workers stride over the requests, each with its own
 scratch buffer and flow shard, under any schedule; the shards are reduced once they have joined.
 */
module FanOut {
  import opened Costs
  import opened Results
  import opened Graphs
  import opened Vectors
  import opened Assignment
  import ShortestPaths

  /** At most one worker per processor and per request, and at least one. */
  function WorkersFor(n: int, processors: int): (workers: nat)
    ensures workers >= 1
    ensures workers > 1 ==> workers <= n && workers <= processors
    ensures n > 1 && processors > 1 ==> workers == n || workers == processors
  {
    if n <= 0 then 1
    else
      var cap := if processors < 1 then 1 else processors;
      if cap > n then n else cap
  }

  // ---- reducing the shards

  /** Sums the shards element-wise, shard by shard and edge by edge. */
  method CombineFlows(m: nat, shards: seq<Vec>) returns (combined: array<real>)
    ensures fresh(combined) && combined[..] == SumVecs(m, shards, |shards|)
  {
    combined := new real[m](_ => 0.0);
    for s := 0 to |shards|
      invariant combined[..] == SumVecs(m, shards, s)
    {
      var limit := if |shards[s]| > m then m else |shards[s]|;
      ghost var before := combined[..];
      for e := 0 to limit
        invariant forall i :: 0 <= i < m ==>
          combined[i] == if i < e then before[i] + shards[s][i] else before[i]
      {
        combined[e] := combined[e] + shards[s][e];
      }
    }
  }

  /** Adding a route to one shard adds it to the sum. */
  lemma {:induction false} ShardStep(m: nat, shards: seq<Vec>, w: nat, edges: seq<int>, weight: real, n: nat)
    requires n <= |shards| && w < |shards| && forall s :: 0 <= s < |shards| ==> |shards[s]| == m
    ensures SumVecs(m, shards[w := AddRoute(shards[w], edges, weight)], n)
            == if w < n then AddRoute(SumVecs(m, shards, n), edges, weight) else SumVecs(m, shards, n)
  {
    if n > 0 {
      ShardStep(m, shards, w, edges, weight, n - 1);
      var x, y := SumVecs(m, shards, n - 1), shards[n - 1];
      if w == n - 1 {
        AddRouteAdds(x, y, edges, weight, |edges|);
      } else if w < n - 1 {
        AddRouteAdds(y, x, edges, weight, |edges|);
        AddCommutes(x, y);
        AddCommutes(AddRoute(x, edges, weight), y);
      }
    }
  }

  lemma AddCommutes(x: Vec, y: Vec)
    requires |x| == |y|
    ensures Add(x, y) == Add(y, x)
  {
  }

  lemma {:induction false} TotalStep(totals: seq<real>, w: nat, added: real, n: nat)
    requires n <= |totals| && w < |totals|
    ensures SumReals(totals[w := totals[w] + added], n) == SumReals(totals, n) + if w < n then added else 0.0
  {
    if n > 0 {
      TotalStep(totals, w, added, n - 1);
    }
  }

  lemma {:induction false} SumOfZeros(m: nat, shards: seq<Vec>, totals: seq<real>, n: nat)
    requires n <= |shards| == |totals|
    requires forall s :: 0 <= s < |shards| ==> shards[s] == Zeros(m) && totals[s] == 0.0
    ensures SumVecs(m, shards, n) == Zeros(m) && SumReals(totals, n) == 0.0
  {
    if n > 0 {
      SumOfZeros(m, shards, totals, n - 1);
    }
  }

  // ---- one worker

  /** A worker's private state: its scratch buffer, its flow shard and its place in its stride. */
  class Worker {
    const scratch: ShortestPaths.Scratch
    const shard: array<real>
    var localTotal: real
    var next: nat
    var failed: bool
    ghost const repr: set<object>

    ghost predicate Valid(g: Graph)
      reads this, repr
    {
      && {this, scratch, shard} <= repr && repr == {this, scratch, shard, scratch.dist, scratch.prevEdge}
      && scratch.Valid() && g.NodeCount() <= scratch.dist.Length
    }

    constructor (index: nat, g: Graph)
      ensures Valid(g) && fresh(repr)
      ensures shard[..] == Zeros(|g.edges|) && localTotal == 0.0 && next == index && !failed
    {
      var buffer := new ShortestPaths.Scratch(g.NodeCount());
      var flows := new real[|g.edges|](_ => 0.0);
      scratch, shard := buffer, flows;
      localTotal, next, failed := 0.0, index, false;
      repr := {this, buffer, flows, buffer.dist, buffer.prevEdge};
    }

    /** Routes the worker's next request; an unroutable one stops the worker. */
    method Step(g: Graph, reqs: seq<Request>, weight: Weight, stride: nat) returns (route: Option<Route>)
      requires Valid(g) && g.Valid() && !failed && next < |reqs|
      modifies repr
      ensures Valid(g)
      ensures route.Some? <==> Served(g, reqs[old(next)], weight)
      ensures route.Some? ==>
        && Cheapest(g, reqs[old(next)], weight, route.value) && !failed && next == old(next) + stride
        && shard[..] == AddRoute(old(shard[..]), route.value.edges, RequestWeight(reqs[old(next)]))
        && localTotal == old(localTotal) + Charge(reqs[old(next)], route.value)
      ensures route.None? ==>
        failed && next == old(next) && shard[..] == old(shard[..]) && localTotal == old(localTotal)
    {
      var req := reqs[next];
      ghost var before := shard[..];
      var path, cost, found, _ := ShortestPaths.Dijkstra(g, req.src, req.dst, weight, scratch);
      assert shard[..] == before;
      if !found {
        failed := true;
        return None;
      }
      var chosen := Route(req.id, path, cost);
      AddRouteFlow(shard, chosen, RequestWeight(req));
      localTotal := localTotal + Charge(req, chosen);
      next := next + stride;
      return Some(chosen);
    }
  }

  // ---- the pool, as values

  /** The worker whose stride of n reaches request i: i modulo n. */
  function Owner(i: nat, n: nat): (w: nat)
    requires n > 0
    ensures w < n
  {
    if i < n then i else Owner(i - n, n)
  }

  /** What the workers have produced so far, next to the routes written by request index. */
  datatype Progress = Progress(
    routes: seq<Route>, charges: seq<real>, done: seq<bool>, shards: seq<Vec>, totals: seq<real>, nexts: seq<nat>,
    failed: seq<bool>)

  /** A request is done exactly when its owner's stride has passed it. */
  ghost predicate StridesOk(done: seq<bool>, nexts: seq<nat>) {
    && |nexts| > 0
    && (forall w :: 0 <= w < |nexts| ==> Owner(nexts[w], |nexts|) == w)
    && (forall i :: 0 <= i < |done| ==> (done[i] <==> i < nexts[Owner(i, |nexts|)]))
  }

  /** The shards add up to the flow of the requests done, the workers' totals to their charges. */
  ghost predicate SumsOk(m: nat, reqs: seq<Request>, p: Progress) {
    && |p.shards| == |p.totals| && |p.routes| == |p.charges| == |p.done| == |reqs|
    && (forall w :: 0 <= w < |p.shards| ==> |p.shards[w]| == m)
    && SumVecs(m, p.shards, |p.shards|) == FlowDone(m, reqs, p.routes, p.done, |reqs|)
    && SumReals(p.totals, |p.totals|) == TotalDone(p.charges, p.done, |reqs|)
  }

  ghost predicate RoutesOk(g: Graph, reqs: seq<Request>, weight: Weight, p: Progress)
    requires |p.routes| == |p.charges| == |p.done| == |reqs|
  {
    forall i :: 0 <= i < |reqs| && p.done[i] ==>
      Cheapest(g, reqs[i], weight, p.routes[i]) && p.charges[i] == Charge(reqs[i], p.routes[i])
  }

  ghost predicate ProgressOk(g: Graph, reqs: seq<Request>, weight: Weight, p: Progress) {
    && |p.shards| == |p.failed| == |p.nexts|
    && SumsOk(|g.edges|, reqs, p) && RoutesOk(g, reqs, weight, p)
    && StridesOk(p.done, p.nexts)
  }

  /** Worker w's step: it writes its request's route and moves one stride on. */
  ghost function Advance(g: Graph, reqs: seq<Request>, p: Progress, w: nat, route: Route): Progress
    requires w < |p.nexts| == |p.shards| == |p.totals| && p.nexts[w] < |reqs| == |p.routes| == |p.charges| == |p.done|
  {
    var i := p.nexts[w];
    var charge := Charge(reqs[i], route);
    Progress(p.routes[i := route], p.charges[i := charge], p.done[i := true],
             p.shards[w := AddRoute(p.shards[w], route.edges, RequestWeight(reqs[i]))],
             p.totals[w := p.totals[w] + charge],
             p.nexts[w := i + |p.nexts|], p.failed)
  }

  /** A worker can still take a step. */
  predicate CanRun(reqs: seq<Request>, p: Progress, w: int)
    requires |p.nexts| == |p.failed|
  {
    0 <= w < |p.nexts| && !p.failed[w] && p.nexts[w] < |reqs|
  }

  /** Only an unroutable request stops a worker, and it stays at that request. */
  ghost predicate FailuresOk(g: Graph, reqs: seq<Request>, weight: Weight, p: Progress)
    requires |p.nexts| == |p.failed|
  {
    forall w :: 0 <= w < |p.nexts| && p.failed[w] ==> p.nexts[w] < |reqs| && !Served(g, reqs[p.nexts[w]], weight)
  }

  lemma AdvanceKeepsFailures(g: Graph, reqs: seq<Request>, weight: Weight, p: Progress, w: nat, route: Route)
    requires ProgressOk(g, reqs, weight, p) && FailuresOk(g, reqs, weight, p) && CanRun(reqs, p, w)
    requires Cheapest(g, reqs[p.nexts[w]], weight, route)
    ensures ProgressOk(g, reqs, weight, Advance(g, reqs, p, w, route))
    ensures FailuresOk(g, reqs, weight, Advance(g, reqs, p, w, route))
    ensures !p.done[p.nexts[w]]
  {
    AdvanceKeepsProgress(g, reqs, weight, p, w, route);
  }

  lemma StopKeepsProgress(g: Graph, reqs: seq<Request>, weight: Weight, p: Progress, w: nat)
    requires ProgressOk(g, reqs, weight, p) && FailuresOk(g, reqs, weight, p) && CanRun(reqs, p, w)
    requires !Served(g, reqs[p.nexts[w]], weight)
    ensures ProgressOk(g, reqs, weight, p.(failed := p.failed[w := true]))
    ensures FailuresOk(g, reqs, weight, p.(failed := p.failed[w := true]))
  {
  }

  /** Once no worker can run and none has failed, every request is done. */
  lemma JoinedIsComplete(g: Graph, reqs: seq<Request>, weight: Weight, p: Progress)
    requires ProgressOk(g, reqs, weight, p)
    requires forall w :: !CanRun(reqs, p, w)
    requires forall w :: 0 <= w < |p.failed| ==> !p.failed[w]
    ensures IsAllOrNothing(g, reqs, weight,
      Outcome(p.routes, SumVecs(|g.edges|, p.shards, |p.nexts|), SumReals(p.totals, |p.nexts|)))
  {
    forall i | 0 <= i < |reqs|
      ensures p.done[i]
    {
      assert !CanRun(reqs, p, Owner(i, |p.nexts|));
    }
    AllFlowDone(|g.edges|, reqs, p.routes, p.done, |reqs|);
    AllTotalDone(p.charges, p.done, |reqs|);
    assert p.charges == Charges(reqs, p.routes);
  }

  lemma RoutedIsServed(g: Graph, reqs: seq<Request>, weight: Weight, o: Outcome)
    requires g.Valid() && IsAllOrNothing(g, reqs, weight, o)
    ensures forall i :: 0 <= i < |reqs| ==> Served(g, reqs[i], weight)
  {
    forall i | 0 <= i < |reqs|
      ensures Served(g, reqs[i], weight)
    {
      assert Cheapest(g, reqs[i], weight, o.routes[i]);
      WalkStaysInside(g, reqs[i].src, o.routes[i].edges, reqs[i].dst);
    }
  }

  lemma {:induction false} OwnerIsUnique(i: nat, j: nat, n: nat)
    requires n > 0 && Owner(i, n) == Owner(j, n) && j <= i < j + n
    ensures i == j
  {
    if j >= n {
      OwnerIsUnique(i - n, j - n, n);
    }
  }

  /** A worker never reaches a request that is already done, and moving one stride on skips none. */
  lemma StrideStep(done: seq<bool>, nexts: seq<nat>, w: nat)
    requires StridesOk(done, nexts) && w < |nexts| && nexts[w] < |done|
    ensures !done[nexts[w]]
    ensures StridesOk(done[nexts[w] := true], nexts[w := nexts[w] + |nexts|])
  {
    var i, count := nexts[w], |nexts|;
    assert Owner(i + count, count) == Owner(i, count);
    forall j | 0 <= j < |done|
      ensures done[i := true][j] <==> j < nexts[w := i + count][Owner(j, count)]
    {
      if Owner(j, count) == w && i <= j < i + count {
        OwnerIsUnique(j, i, count);
      }
    }
  }

  /** Each step keeps the shards' sum equal to the flow done so far. */
  lemma StepKeepsSums(m: nat, reqs: seq<Request>, p: Progress, w: nat, i: nat, route: Route, charge: real)
    requires SumsOk(m, reqs, p) && w < |p.shards| && i < |reqs| && !p.done[i]
    ensures SumsOk(m, reqs, p.(
      routes := p.routes[i := route], charges := p.charges[i := charge], done := p.done[i := true],
      shards := p.shards[w := AddRoute(p.shards[w], route.edges, RequestWeight(reqs[i]))],
      totals := p.totals[w := p.totals[w] + charge]))
  {
    FlowDoneStep(m, reqs, p.routes, p.done, i, route, |reqs|);
    TotalDoneStep(p.charges, p.done, i, charge, |reqs|);
    ShardStep(m, p.shards, w, route.edges, RequestWeight(reqs[i]), |p.shards|);
    TotalStep(p.totals, w, charge, |p.shards|);
  }

  lemma RouteRecorded(g: Graph, reqs: seq<Request>, weight: Weight, p: Progress, i: nat, route: Route, q: Progress)
    requires |p.routes| == |p.charges| == |p.done| == |reqs| && RoutesOk(g, reqs, weight, p)
    requires i < |reqs| && Cheapest(g, reqs[i], weight, route)
    requires q.routes == p.routes[i := route] && q.charges == p.charges[i := Charge(reqs[i], route)]
    requires q.done == p.done[i := true]
    ensures RoutesOk(g, reqs, weight, q)
  {
  }

  /** No request is routed twice. */
  lemma AdvanceKeepsProgress(g: Graph, reqs: seq<Request>, weight: Weight, p: Progress, w: nat, route: Route)
    requires ProgressOk(g, reqs, weight, p) && w < |p.nexts| && p.nexts[w] < |reqs|
    requires Cheapest(g, reqs[p.nexts[w]], weight, route)
    ensures !p.done[p.nexts[w]]
    ensures ProgressOk(g, reqs, weight, Advance(g, reqs, p, w, route))
  {
    var q := Advance(g, reqs, p, w, route);
    StrideStep(p.done, p.nexts, w);
    StepKeepsSums(|g.edges|, reqs, p, w, p.nexts[w], route, Charge(reqs[p.nexts[w]], route));
    RouteRecorded(g, reqs, weight, p, p.nexts[w], route, q);
  }

  lemma NoProgressYet(g: Graph, reqs: seq<Request>, weight: Weight, p: Progress)
    requires |p.nexts| > 0 && |p.shards| == |p.totals| == |p.failed| == |p.nexts| && |p.routes| == |p.charges| == |p.done| == |reqs|
    requires forall w :: 0 <= w < |p.nexts| ==>
      p.nexts[w] == w && p.shards[w] == Zeros(|g.edges|) && p.totals[w] == 0.0
    requires forall i :: 0 <= i < |reqs| ==> !p.done[i]
    ensures ProgressOk(g, reqs, weight, p)
  {
    var count := |p.nexts|;
    forall i | 0 <= i < |reqs|
      ensures Owner(i, count) <= i
    {
      OwnerBelow(i, count);
    }
    NothingDone(|g.edges|, reqs, p.routes, p.charges, p.done, |reqs|);
    SumOfZeros(|g.edges|, p.shards, p.totals, count);
  }

  lemma {:induction false} OwnerBelow(i: nat, n: nat)
    requires n > 0
    ensures Owner(i, n) <= i
  {
    if i >= n {
      OwnerBelow(i - n, n);
    }
  }

  // ---- the fan-out

  ghost predicate Tracks(workers: seq<Worker>, p: Progress)
    reads *
  {
    && |workers| == |p.nexts| == |p.shards| == |p.totals| == |p.failed|
    && forall w :: 0 <= w < |workers| ==>
      && workers[w].next == p.nexts[w] && workers[w].failed == p.failed[w]
      && workers[w].shard[..] == p.shards[w] && workers[w].localTotal == p.totals[w]
  }

  ghost predicate AllValid(g: Graph, workers: seq<Worker>)
    reads *
  {
    forall w :: 0 <= w < |workers| ==> workers[w].Valid(g)
  }

  /** No two workers share any mutable state. */
  ghost predicate Separate(workers: seq<Worker>) {
    forall v, w :: 0 <= v < w < |workers| ==> workers[v].repr !! workers[w].repr
  }

  method StartWorkers(g: Graph, count: nat) returns (workers: seq<Worker>)
    ensures |workers| == count && Separate(workers) && AllValid(g, workers)
    ensures forall w :: 0 <= w < count ==>
      && fresh(workers[w].repr) && workers[w].next == w && !workers[w].failed
      && workers[w].shard[..] == Zeros(|g.edges|) && workers[w].localTotal == 0.0
  {
    workers := [];
    for index := 0 to count
      invariant |workers| == index && Separate(workers) && AllValid(g, workers)
      invariant forall w :: 0 <= w < index ==>
        && fresh(workers[w].repr) && workers[w].next == w && !workers[w].failed
        && workers[w].shard[..] == Zeros(|g.edges|) && workers[w].localTotal == 0.0
    {
      var worker := new Worker(index, g);
      workers := workers + [worker];
    }
  }

  /** What a step of worker w records. */
  ghost function After(g: Graph, reqs: seq<Request>, p: Progress, w: nat, route: Option<Route>): Progress
    requires |p.nexts| == |p.shards| == |p.totals| == |p.failed| && CanRun(reqs, p, w)
    requires |p.routes| == |p.charges| == |p.done| == |reqs|
  {
    match route
    case Some(chosen) => Advance(g, reqs, p, w, chosen)
    case None => p.(failed := p.failed[w := true])
  }

  /** One worker takes one step; the others keep their state. */
  method MoveWorker(g: Graph, reqs: seq<Request>, weight: Weight, workers: seq<Worker>, w: nat, ghost p: Progress)
    returns (route: Option<Route>)
    requires g.Valid() && Separate(workers) && AllValid(g, workers) && Tracks(workers, p)
    requires |p.routes| == |p.charges| == |p.done| == |reqs| && CanRun(reqs, p, w)
    modifies workers[w].repr
    ensures AllValid(g, workers) && Tracks(workers, After(g, reqs, p, w, route))
    ensures route.Some? <==> Served(g, reqs[p.nexts[w]], weight)
    ensures route.Some? ==> Cheapest(g, reqs[p.nexts[w]], weight, route.value)
  {
    assert forall v :: 0 <= v < |workers| ==> {workers[v] as object, workers[v].shard} <= workers[v].repr;
    route := workers[w].Step(g, reqs, weight, |workers|);
  }

  method TakeStep(g: Graph, reqs: seq<Request>, weight: Weight, workers: seq<Worker>, w: nat, ghost p: Progress)
    returns (route: Option<Route>, ghost p': Progress)
    requires g.Valid() && Separate(workers) && AllValid(g, workers)
    requires Tracks(workers, p) && ProgressOk(g, reqs, weight, p) && FailuresOk(g, reqs, weight, p)
    requires CanRun(reqs, p, w)
    modifies workers[w].repr
    ensures AllValid(g, workers) && Tracks(workers, p')
    ensures ProgressOk(g, reqs, weight, p') && FailuresOk(g, reqs, weight, p')
    ensures route.Some? ==>
      && p'.failed == p.failed && !p.done[p.nexts[w]] && p'.done == p.done[p.nexts[w] := true]
      && p'.routes == p.routes[p.nexts[w] := route.value]
    ensures route.None? ==>
      && p'.failed == p.failed[w := true] && p'.done == p.done && p'.routes == p.routes
      && !Served(g, reqs[p.nexts[w]], weight)
  {
    route := MoveWorker(g, reqs, weight, workers, w, p);
    p' := After(g, reqs, p, w, route);
    if route.Some? {
      AdvanceKeepsFailures(g, reqs, weight, p, w, route.value);
    } else {
      StopKeepsProgress(g, reqs, weight, p, w);
    }
  }

  /** Joins the workers' shards and totals. */
  method Reduce(g: Graph, workers: seq<Worker>, ghost p: Progress) returns (flows: seq<real>, totalSP: real)
    requires Tracks(workers, p)
    ensures flows == SumVecs(|g.edges|, p.shards, |workers|) && totalSP == SumReals(p.totals, |workers|)
  {
    var shards: seq<Vec> := [];
    totalSP := 0.0;
    for w := 0 to |workers|
      invariant shards == p.shards[..w] && totalSP == SumReals(p.totals, w)
    {
      shards := shards + [workers[w].shard[..]];
      totalSP := totalSP + workers[w].localTotal;
    }
    assert shards == p.shards;
    var combined := CombineFlows(|g.edges|, shards);
    flows := combined[..];
  }

  /**
   Routes every request against one fixed weight. While any worker can run, an arbitrary one
   of them takes a step: the result holds for every interleaving and every worker count.
   */
  method AssignWith(g: Graph, reqs: seq<Request>, weight: Weight, workerCount: nat)
    returns (r: Result<Outcome, int>)
    requires g.Valid() && workerCount > 0
    ensures r.Ok? <==> forall i :: 0 <= i < |reqs| ==> Served(g, reqs[i], weight)
    ensures r.Ok? ==> IsAllOrNothing(g, reqs, weight, r.value)
    ensures r.Err? ==> 0 <= r.error < |reqs| && !Served(g, reqs[r.error], weight)
  {
    var workers := StartWorkers(g, workerCount);
    var routes := seq(|reqs|, _ => Route("", [], ZERO));
    ghost var p := Progress(
      routes, seq(|reqs|, _ => 0.0), seq(|reqs|, _ => false), seq(workerCount, _ => Zeros(|g.edges|)),
      seq(workerCount, _ => 0.0), seq(workerCount, w => w), seq(workerCount, _ => false));
    NoProgressYet(g, reqs, weight, p);
    var firstErr;
    routes, firstErr, p := RunWorkers(g, reqs, weight, workers, routes, p);
    if firstErr.Some? {
      if forall i :: 0 <= i < |reqs| ==> Served(g, reqs[i], weight) {
        assert false;
      }
      return Err(firstErr.value);
    }
    JoinedIsComplete(g, reqs, weight, p);
    var flows, totalSP := Reduce(g, workers, p);
    RoutedIsServed(g, reqs, weight, Outcome(routes, flows, totalSP));
    return Ok(Outcome(routes, flows, totalSP));
  }

  /** The fan-out over as many workers as the processors and the requests call for. */
  method AssignAllOrNothing(g: Graph, reqs: seq<Request>, weight: Weight, processors: int)
    returns (r: Result<Outcome, int>)
    requires g.Valid()
    ensures r.Ok? <==> forall i :: 0 <= i < |reqs| ==> Served(g, reqs[i], weight)
    ensures r.Ok? ==> IsAllOrNothing(g, reqs, weight, r.value)
    ensures r.Err? ==> 0 <= r.error < |reqs| && !Served(g, reqs[r.error], weight)
  {
    r := AssignWith(g, reqs, weight, WorkersFor(|reqs|, processors));
  }

  /** An error is recorded exactly when some worker failed, and names an unroutable request. */
  ghost predicate ErrorOk(g: Graph, reqs: seq<Request>, weight: Weight, p: Progress, firstErr: Option<int>) {
    match firstErr
    case None => forall w :: 0 <= w < |p.failed| ==> !p.failed[w]
    case Some(index) => 0 <= index < |reqs| && !Served(g, reqs[index], weight)
  }

  /** The positions whose flag is not set. */
  ghost function Unset(flags: seq<bool>): set<int> {
    set i | 0 <= i < |flags| && !flags[i]
  }

  lemma SettingShrinks(flags: seq<bool>, i: nat)
    requires i < |flags| && !flags[i]
    ensures |Unset(flags[i := true])| < |Unset(flags)|
  {
    assert Unset(flags[i := true]) == Unset(flags) - {i};
  }

  /** The steps the pool can take at most. */
  ghost function StepsLeft(p: Progress): nat {
    |Unset(p.failed)| + |Unset(p.done)|
  }

  /** Lets worker w take one step and keeps the result slice and the first error up to date. */
  method RunOne(g: Graph, reqs: seq<Request>, weight: Weight, workers: seq<Worker>, w: nat,
                routes: seq<Route>, firstErr: Option<int>, ghost p: Progress)
    returns (routes': seq<Route>, firstErr': Option<int>, ghost p': Progress)
    requires g.Valid() && Separate(workers) && AllValid(g, workers)
    requires Tracks(workers, p) && ProgressOk(g, reqs, weight, p) && FailuresOk(g, reqs, weight, p)
    requires routes == p.routes && ErrorOk(g, reqs, weight, p, firstErr) && CanRun(reqs, p, w)
    modifies workers[w].repr
    ensures AllValid(g, workers) && Tracks(workers, p')
    ensures routes' == p'.routes && ProgressOk(g, reqs, weight, p') && FailuresOk(g, reqs, weight, p')
    ensures ErrorOk(g, reqs, weight, p', firstErr')
    ensures StepsLeft(p') < StepsLeft(p)
  {
    var index := workers[w].next;
    var route;
    routes', firstErr' := routes, firstErr;
    route, p' := TakeStep(g, reqs, weight, workers, w, p);
    match route
    case Some(chosen) =>
      routes' := routes[index := chosen];
      SettingShrinks(p.done, index);
    case None =>
      firstErr' := if firstErr.None? then Some(index) else firstErr;
      SettingShrinks(p.failed, w);
  }

  /** Some worker that can still take a step, whichever the scheduler picks. */
  method Schedule(reqs: seq<Request>, workers: seq<Worker>, ghost p: Progress) returns (next: Option<nat>)
    requires Tracks(workers, p)
    ensures next.Some? ==> CanRun(reqs, p, next.value)
    ensures next.None? ==> forall w :: !CanRun(reqs, p, w)
  {
    if w: nat :| w < |workers| && !workers[w].failed && workers[w].next < |reqs| {
      return Some(w);
    }
    forall w
      ensures !CanRun(reqs, p, w)
    {
    }
    return None;
  }

  /** Everything the workers own. */
  ghost function Footprint(workers: seq<Worker>): set<object> {
    set w, o | 0 <= w < |workers| && o in workers[w].repr :: o
  }

  lemma InFootprint(workers: seq<Worker>, w: nat)
    requires w < |workers|
    ensures workers[w].repr <= Footprint(workers)
  {
  }

  /** Schedules the workers until none can run. */
  method RunWorkers(g: Graph, reqs: seq<Request>, weight: Weight, workers: seq<Worker>,
                    start: seq<Route>, ghost p0: Progress)
    returns (routes: seq<Route>, firstErr: Option<int>, ghost p: Progress)
    requires g.Valid() && Separate(workers) && AllValid(g, workers)
    requires Tracks(workers, p0) && ProgressOk(g, reqs, weight, p0) && FailuresOk(g, reqs, weight, p0)
    requires start == p0.routes && ErrorOk(g, reqs, weight, p0, None)
    modifies Footprint(workers)
    ensures Tracks(workers, p) && ProgressOk(g, reqs, weight, p) && routes == p.routes
    ensures |p.failed| == |p.nexts| && forall w :: !CanRun(reqs, p, w)
    ensures ErrorOk(g, reqs, weight, p, firstErr)
  {
    routes, firstErr, p := start, None, p0;
    var next := Schedule(reqs, workers, p);
    while next.Some?
      invariant AllValid(g, workers) && Tracks(workers, p)
      invariant routes == p.routes && ProgressOk(g, reqs, weight, p) && FailuresOk(g, reqs, weight, p)
      invariant ErrorOk(g, reqs, weight, p, firstErr)
      invariant if next.Some? then CanRun(reqs, p, next.value) else forall w :: !CanRun(reqs, p, w)
      decreases StepsLeft(p)
    {
      InFootprint(workers, next.value);
      routes, firstErr, p := RunOne(g, reqs, weight, workers, next.value, routes, firstErr, p);
      next := Schedule(reqs, workers, p);
    }
  }
}
