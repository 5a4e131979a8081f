# A verified model of the demand-aware routing engine

A Dafny model of the routing engine: the shared Dijkstra/A* core and Yen's k-shortest paths,
the iterative traffic-assignment routers, the mesoscopic simulator, the live stream with its
client reducer, and the indexes and stores around them. Arithmetic is exact: costs are
non-negative reals with an explicit +Inf, times and loads are reals. `dafny verify
dfyconfig.toml` checks the whole project.

## How it is laid out

- `Costs`, `Results`, `Sets`, `Graphs`, `Vectors`: costs with +Inf, the road network, walks
  and their costs, dense per-edge vectors.
- `Labels`, `ShortestPaths`, `AStar`: the label-correcting invariant of the shared settle/relax
  loop on values, the array-based search proved against it, and the chord heuristic.
- `YenPaths`, `KShortest`: the branching argument behind Yen's algorithm, and the search.
- `Bpr`, `Assignment`, `FanOut`, `Pricing`, `Equilibrium`, `RunTheorems`, `Convergence`,
  `ReportedFlows`, `ReportedRoutes`: the volume-delay function with bounds on its convexity from
  both sides, flows, the sharded all-or-nothing step, the prices of a flow, the convergence loop
  with its three strategies, what every run of it satisfies, how close the system-optimal router
  comes to the optimum in so many iterations, when the reported flow is that of the reported
  routes, and at which prices each reported route is a cheapest one.
- `LoadStores`, `Vehicles`, `ReleaseOrder`, `Ticks`, `Evaluator`, `Simulator`, `SimulationRuns`,
  `TripProgress`: the load store, the motion of one vehicle, the release order, a run as a
  function of its inputs, the summary figures, the tick loop proved against them, what holds
  after every tick of every run, and how far a tick takes each trip through the traffic it met.
- `Frames`, `Stream`, `CongestionClient`, `LiveBuffers`, `StreamRuns`, `StreamContents`,
  `StreamEndings`: the wire protocol, the server's replay state, the client's reducer, the
  producers' store with the first-tick waiter, every interleaving of them, what the frames carry
  and the client shows in the numbers of the ticks, and how each run ends.
- `UnionFinds`, `Connectivity`, `KdTrees`, `Adjacency`, `Loader`, `LoadedExports`, `SegmentIds`:
  the graph side.
- `RateLimits`, `CacheKeys`, `JobStores`: the API side.

Loops that update arrays or fields in the engine are methods on arrays and classes here, each
proved against a function or predicate on values; the theorems are about those. Runs of a
protocol or of an iterative router are sequences of states linked by single steps, and the
main results quantify over all of them.

## Modelling choices

- The heap of the search is a set from which any least entry is taken, which covers every tie
  order; `Labels.PushedIsNew` shows a set loses no entry. The candidate heap of Yen's search is
  a set ordered by cost and insertion number.
- The engine has one loop with a nil or non-nil heuristic; here the heuristic is an option.
- The step closures of the iterative routers are the constructors of `Equilibrium.Strategy`;
  realized and marginal prices are the constructors of `Pricing.Basis`.
- The fan-out runs its workers one step at a time in any order; the results hold for every
  interleaving and every worker count, in exact arithmetic. With floats, run-to-run identity
  needs a fixed worker count.
- Requests carry their end nodes; snapping coordinates to nodes is `KdTrees.Nearest`.
- The simulator takes its router as a function from the load snapshot and the request to an
  optional path. A vehicle of the model also remembers the tick it was released in.
- Stream producers, replay turns and the end check are atomic steps, as the mutex makes them;
  the frames of a round are collected first and then written one by one, and producers may act
  between any two of these steps. The append and the signal of a producer are separate steps in
  the waiter's protocol.
- Distances are abstract with the properties the engine relies on (triangle inequality,
  per-axis bounds); `AStar.PlanarIsMetric` and `KdTrees.PlanarIsAdmissible` instantiate them.

## Where the code and its comments differ

The model follows the code.

- The final flow is the sum over the reported routes for the incremental router
  (`RunTheorems.IncrementalLoadsEverything`), but not always for the averaging ones
  (`engine/internal/routing/routing.go:77-82`): it is exactly when the run made one step, or its
  last step moved nothing (`ReportedFlows.AveragedFlowIsOfRoutesIff`); a single step is told
  from the inputs (`RunTheorems.SingleStepIff`), requests without a choice of path are enough
  (`ReportedFlows.WithoutChoiceFlowIsOfRoutes`), and on two like links it is not
  (`ReportedFlows.AveragedFlowCanDiffer`).
- A simulation without requests runs one tick, not zero
  (`engine/internal/benchmark/simulator.go:287-288`): `SimulationRuns.EmptyRun`.
- Dropping an idle bucket preserves its state only when the refill over `idleTTL` covers the
  burst (`engine/internal/api/middleware.go:280-282`): `RateLimits.EvictionInvisibleIff`.
- The retry time is documented as the time until one token has refilled
  (`engine/internal/api/middleware.go:245-247`), but it is cut off to whole nanoseconds, so it
  can be a fraction of one too short: `RateLimits.RetryHonestIff` says for which configurations
  it is always enough, `RateLimits.RetryCanFallShort` shows one for which it is not.
- A job's success recorded after its failure would leave it live without a key
  (`engine/internal/api/benchmark.go:271-288`); `JobStores.CompletedCoherentIff` states the exact
  condition.

## What a reported gap means

The two averaging routers report the gap of the iterate before averaging next to the flow after
it, as their comments say (`engine/internal/routing/msa.go:112-123`).
`RunTheorems.IterateNearOptimum` says what the gap bounds for the iterate and
`RunTheorems.ReportedFlowNearOptimum` what it still bounds for the reported flow;
`Convergence.SystemOptimalRate` bounds the reported flow by the number of iterations alone.

## Model

| member | source | states |
|---|---|---|
| Labels.Reroot | engine/internal/routing/dijkstra.go:168-187 | after a label improves, every predecessor walk still reaches the source without repeating a node: a walk that met the improved node is rerouted through its new predecessor |
| Labels.ImproveKeepsRooted | engine/internal/routing/dijkstra.go:168-187 | the predecessor graph never forms a cycle, zero-weight edges included, because an improvement at a node on its own predecessor walk would contradict the labels along it |
| Labels.ImproveKeepsInv | engine/internal/routing/dijkstra.go:168-187 | relaxing one edge (new label, new predecessor, one more queue entry) keeps the whole search invariant for the edges still to be relaxed |
| Labels.PushedIsNew | engine/internal/routing/dijkstra.go:168-187 | an improved node is never pushed with a label it already waits with, so treating the heap as a set loses nothing |
| Labels.PopStale | engine/internal/routing/dijkstra.go:137-160 | discarding a popped entry whose label has since improved keeps the invariant and the record of expansions |
| Labels.PopFresh | engine/internal/routing/dijkstra.go:137-160 | popping a current entry keeps the invariant with the edges out of that node pending, closes that node and no other |
| Labels.FrontierOnWalk | engine/internal/routing/dijkstra.go:137-187 | along every finite walk some node is still open with a label no dearer than the walk to it, or the walk is already matched to its end |
| Labels.PoppedTargetIsBest | engine/internal/routing/dijkstra.go:137-166 | for any admissible heuristic, even an inconsistent one, the destination is settled with the cheapest walk when it is popped with a current label |
| Labels.PoppedIsBest | engine/internal/routing/dijkstra.go:137-166 | for a consistent heuristic every node popped with a current label is settled with the cheapest walk |
| Labels.DrainedIsBest | engine/internal/routing/dijkstra.go:137-191 | when the queue runs empty every label is the cheapest walk, so an infinite one means unreachable |
| Labels.BestIsNotImproved | engine/internal/routing/dijkstra.go:168-187 | a label that is already the cheapest walk is never improved again |
| Labels.ExpandKeepsTrace | engine/internal/routing/dijkstra.go:137-166 | each expansion is of a node really reached at that cost, whose label plus heuristic is at most the cost of every walk to the destination |
| Labels.DrainedHasExpandedAll | engine/internal/routing/dijkstra.go:137-191 | a search whose queue runs empty has expanded every node some walk of finite cost reaches |
| Labels.ConsistentIsAdmissible | engine/internal/routing/dijkstra.go:28-36 | a consistent heuristic never exceeds the cost of any walk to the destination |
| ShortestPaths.Scratch.Reset | engine/internal/routing/scratch.go:44-50 | the buffers come back at least as long as asked, the same ones when they were already long enough, fresh ones otherwise |
| ShortestPaths.PopMin | engine/internal/routing/dijkstra.go:137-139 | takes an entry no other entry beats out of the queue |
| ShortestPaths.ReverseInPlace | engine/internal/routing/dijkstra.go:205-209 | the in-place swap loop leaves the array reversed |
| ShortestPaths.WalkBack | engine/internal/routing/dijkstra.go:193-211 | following predecessors from the destination and reversing gives a simple path from the source whose cost is the label of the destination, every node of it but the last having been expanded |
| ShortestPaths.ShortestPath | engine/internal/routing/dijkstra.go:99-211 | terminates; finds a path exactly when a walk of finite cost exists; the path is a simple edge chain, its cost is the reported one and no walk is cheaper. The expansions are of nodes really reached at that cost, within the optimum, include every node of the path but the last, or every reachable node when there is none, and with a consistent heuristic none twice; long enough scratch buffers are reused |
| ShortestPaths.Dijkstra | engine/internal/routing/dijkstra.go:49-82 | the same without a heuristic: optimal, the nodes of the path (or all reachable ones) expanded, and each at most once |
| AStar.MaxFreeFlowSpeed | engine/internal/routing/astar.go:94-119 | the returned speed bounds chord over free-flow time on every edge and, when positive, is attained by one of them |
| AStar.ChordHeuristicConsistent | engine/internal/routing/astar.go:121-148 | for any distance with the triangle inequality and positive free-flow times, chord over top speed is a consistent heuristic, zero speed included |
| AStar.EstimateIsChordTime | engine/internal/routing/astar.go:134-148 | the estimate, times the top speed, is the distance from the node to the destination; it is zero without a top speed |
| AStar.Router.Route | engine/internal/routing/astar.go:163-184 | the route is found exactly when the destination can be reached; its cost is the sum of the free-flow seconds of its edges, and no walk from source to destination has a smaller sum; its nodes are expanded, no node twice or beyond the optimum |
| AStar.PlanarIsMetric | engine/internal/routing/astar.go:121-148 | the assumptions on the distance are satisfiable: the planar distance meets them |
| YenPaths.MaskedFinite | engine/internal/routing/kshortest.go:163-185 | a path of finite masked cost has its real cost and uses no masked edge and leaves no masked node |
| YenPaths.TailSurvivesMask | engine/internal/routing/kshortest.go:95-121 | the tail of every unaccepted path that shares exactly this root with the accepted ones keeps its real cost under the mask, so the spur search sees it |
| YenPaths.SpurBranches | engine/internal/routing/kshortest.go:95-141 | a root joined to a finite masked spur is a new loopless path that leaves every accepted path at the root, at the cost of root plus spur |
| YenPaths.SpurFound | engine/internal/routing/kshortest.go:112-141 | pushing root plus best spur, unless already seen, keeps every unaccepted path beaten by a candidate for the next spur position |
| YenPaths.NoSpur | engine/internal/routing/kshortest.go:118-124 | a failed spur search means no unaccepted path branches there, so nothing need be pushed |
| YenPaths.Accept | engine/internal/routing/kshortest.go:146-160 | moving a cheapest candidate to the accepted list keeps the accepted paths in cost order and every remaining path beaten by a candidate |
| KShortest.EdgesKeyInjective | engine/internal/routing/kshortest.go:211-228 | the four-byte-per-id key of an edge list determines the list, for 32-bit ids |
| KShortest.PopBest | engine/internal/routing/kshortest.go:231-259 | the next candidate is one no other undercuts in cost, and of those as cheap the one found first |
| KShortest.NextIsOnly | engine/internal/routing/kshortest.go:231-259 | as every candidate has a number of its own, only one can come next |
| KShortest.Push | engine/internal/routing/kshortest.go:141-151 | a path not seen before becomes a candidate under the next number; later finds have larger numbers |
| KShortest.SpurPass | engine/internal/routing/kshortest.go:80-144 | one pass over all spur positions of the last accepted path, with the root cost kept incrementally |
| KShortest.KShortestPaths | engine/internal/routing/kshortest.go:50-161 | at most k distinct loopless paths in non-decreasing cost; every loopless finite path left out costs at least as much as the last one returned; fewer than k means every such path is returned; none for k not positive |
| Bpr.PowBeta | engine/internal/cost/bpr.go:120-137 | repeated squaring computes the power for every natural exponent |
| Bpr.CostFormula | engine/internal/cost/bpr.go:77-118 | free-flow time times one plus alpha times the beta-th power of load over capacity times scale; the marginal cost with alpha times beta plus one; negative loads count as none, and without capacity both are the free-flow time |
| Bpr.PowTangent | engine/internal/cost/bpr.go:77-118 | a power lies above its tangents on the non-negative reals |
| Bpr.CostOrder | engine/internal/cost/bpr.go:77-118 | free-flow time is at most cost, cost at most marginal cost, none negative |
| Bpr.TotalCostTangent | engine/internal/cost/bpr.go:77-118 | for all loads, negative ones included, load times cost is convex and the marginal cost is its slope: it lies above every tangent, with and without capacity |
| Assignment.AddRouteFlow | engine/internal/routing/assign.go:65-72 | adds the weight on each in-range edge of the route, once per occurrence, to the flow array in place |
| Assignment.FlowIsDemand | engine/internal/routing/assign.go:65-72 | the flow on an edge is the summed demand of the requests whose routes pass it, once per passage, a request without a positive demand counting as one vehicle |
| Assignment.DotFlow | engine/internal/routing/iterative.go:224-240 | the flow of a set of routes, paired with prices, is the summed weighted price of the routes |
| FanOut.WorkersFor | engine/internal/routing/iterative.go:266-276 | at least one worker; more than one only within both the processors and the requests, and then as many as the lower of the two |
| FanOut.CombineFlows | engine/internal/routing/iterative.go:146-160 | the reduced vector is the elementwise sum of the shards, short or long shards tolerated |
| FanOut.OwnerIsUnique | engine/internal/routing/iterative.go:192-257 | every request index belongs to exactly one stride |
| FanOut.Worker.Step | engine/internal/routing/iterative.go:210-243 | one request of one worker: route it, record the route, add its flow to the private shard and its charge to the private total, or stop at the first failure |
| FanOut.RunWorkers | engine/internal/routing/iterative.go:192-249 | under every interleaving of the workers nobody can go on at the end, each shard and total is that of the requests its stride routed, and the recorded error names an unserved request |
| FanOut.AssignAllOrNothing | engine/internal/routing/iterative.go:192-276 | for any number of processors: succeeds exactly when every request can be served; then each route is a cheapest one, the flows are the request-order accumulation over all routes and totalSP the summed charges; otherwise the error names an unserved request |
| Pricing.EdgeCostSum | engine/internal/routing/iterative.go:286-335 | the sum over edges of load times price, missing entries counting as zero load |
| Pricing.PathCostIsPrice | engine/internal/routing/iterative.go:76-104 | the search weight derived from a flow vector prices a path exactly as the price vector does |
| Pricing.AllOrNothingPriced | engine/internal/routing/iterative.go:192-257 | totalSP equals the sum over edges of all-or-nothing flow times price |
| Pricing.AllOrNothingIsCheapest | engine/internal/routing/iterative.go:192-257 | no routing of the requests, nor any average of routings, costs less than totalSP at the prices the all-or-nothing step routed on |
| Pricing.PlanBalanced | engine/internal/routing/msa.go:94-126 | every routing, and every average of routings, meets the net demand of each node exactly |
| Pricing.TotalTimeTangent | engine/internal/routing/iterative.go:309-335 | total network time lies above its tangent plane, whose slope is the marginal prices |
| Pricing.TotalTimeConvex | engine/internal/routing/iterative.go:309-317 | total network time of an average is at most the average of the total times |
| Pricing.MarginalGapBoundsOptimum | engine/internal/routing/systemoptimal.go:114-150 | for any flow, its total time exceeds that of any feasible flow by at most its marginal total minus the all-or-nothing total, so a zero marginal gap means optimal |
| Equilibrium.BatchBounds | engine/internal/routing/incremental.go:163-188 | the batches partition the requests in order, differ in size by at most one, and the larger ones come first |
| Equilibrium.Average | engine/internal/routing/msa.go:94-126 | one averaging step on realized or marginal prices: the all-or-nothing outcome, the move of 1/k toward it, and the gap of the flow it started from |
| Equilibrium.LoadBatch | engine/internal/routing/incremental.go:117-158 | one batch: routed at the prices of the flow so far, its routes spliced in, its flow added, done at the last batch |
| Equilibrium.Extend | engine/internal/routing/iterative.go:363-424 | one more iteration extends the run, or some request cannot be served |
| Equilibrium.Assign | engine/internal/routing/iterative.go:363-424 | the convergence loop: succeeds exactly when every request is reachable, reports the routes, flow and gap of the last step of a run, and stops at convergence, completion or the iteration limit |
| RunTheorems.FlowIsMean | engine/internal/routing/msa.go:94-126 | after k iterations the flow is exactly the average of the k all-or-nothing flows |
| RunTheorems.FlowIsFeasible | engine/internal/routing/systemoptimal.go:114-150 | from the first iteration on the flow is an average of routings of the requests |
| RunTheorems.FlowConserves | engine/internal/routing/msa.go:94-126 | the flow is never negative and meets the net demand of every node |
| RunTheorems.FirstGap | engine/internal/routing/iterative.go:426-431 | the first gap is exactly one when the all-or-nothing total is positive, else zero |
| RunTheorems.SingleStepIff | engine/internal/routing/iterative.go:363-431 | a finished averaging run made one step exactly when every request has a walk that costs nothing on the empty network |
| RunTheorems.LaterTotalsPositive | engine/internal/routing/iterative.go:414-431 | no price is lower than on the empty network, so from the second iteration on the all-or-nothing total is positive: a zero total would have ended the run at its first step |
| RunTheorems.GapIsOneSided | engine/internal/routing/iterative.go:426-431 | from the second iteration on the current total is at least the all-or-nothing total in the basis of the router, and that is positive, so neither the absolute value nor the zero case of the gap matters |
| RunTheorems.IterateNearOptimum | engine/internal/routing/systemoptimal.go:114-150 | in a system-optimal run the total time of an iterate exceeds that of any feasible flow by at most its gap times its all-or-nothing total |
| RunTheorems.ReportedFlowNearOptimum | engine/internal/routing/systemoptimal.go:139-150 | the reported flow is one average past the iterate whose gap is reported; its total time is bounded through that iterate and the last all-or-nothing flow |
| Bpr.TotalCostBelow | engine/internal/cost/bpr.go:77-118 | while its load stays between zero and a bound, the total of an edge lies below its marginal-cost tangent plus a fixed multiple of the squared change of load, capacity or not |
| Convergence.RunInBox | engine/internal/routing/systemoptimal.go:114-150 | no flow of an averaging run loads an edge with more than all requests together, as loopless routes take an edge once |
| Convergence.ClosingRate | engine/internal/routing/systemoptimal.go:124-137 | any sequence of totals that closes 1/k of its distance to a limit in its k-th step, up to C/k^2, is after k steps behind it by at most C(1 + 1/2 + ... + 1/k)/k |
| Convergence.SystemOptimalRate | engine/internal/routing/systemoptimal.go:114-150 | after k iterations of the system-optimal router, k times the excess of its total time over that of any feasible flow is at most C(1 + 1/2 + ... + 1/k), with C fixed by the network and the summed demand |
| RunTheorems.LoadedFlow | engine/internal/routing/incremental.go:117-158 | after k batches the flow is that of the routes recorded for the requests loaded so far |
| RunTheorems.IncrementalLoadsEverything | engine/internal/routing/incremental.go:105-158 | exactly four iterations, and the final flow is the weighted sum over the reported routes |
| ReportedRoutes.AveragedRoutesAreCheapest | engine/internal/routing/msa.go:94-126 | each iteration of an averaging router reports for every request a loopless path no dearer than any walk at the prices of the flow the iteration started from |
| ReportedRoutes.IncrementalRoutesAreCheapest | engine/internal/routing/incremental.go:105-158 | in a finished incremental run the route reported for a request of a batch is no dearer than any walk at the realized prices of the flow that the reported routes of the earlier batches make |
| ReportedRoutes.FinalFlowIsRouting | engine/internal/routing/incremental.go:105-158 | the routes an incremental run reports are a routing of the requests, and its final flow is theirs |
| ReportedRoutes.IncrementalGapIs | engine/internal/routing/incremental.go:139-158 | the gap an incremental run reports is how much dearer the final flow is than the cheapest routing at its own prices, in shares of the latter, and 0 when that is 0 |
| ReportedFlows.AveragedFlowIsOfRoutesIff | engine/internal/routing/routing.go:77-82 | the final flow of an averaging run is the weighted sum over its reported routes exactly when the run made one step or its last step moved nothing |
| ReportedFlows.WithoutChoiceFlowIsOfRoutes | engine/internal/routing/routing.go:77-82 | when no request has a choice, having one loopless path only, an averaging run makes at most two steps and its final flow is that of its routes |
| ReportedFlows.StandingStillStops | engine/internal/routing/iterative.go:363-431 | a step that moves nothing has gap zero and is the last of its run |
| ReportedFlows.AveragedFlowCanDiffer | engine/internal/routing/msa.go:94-126 | two like links and one trip: the run stops in its third iteration with a flow of two thirds and one third while the reported route takes one link |
| LoadStores.LoadStore.Set | engine/internal/congestion/loadstore.go:62-69 | replaces one load, grows the store with zeros for a new id, ignores a negative id |
| LoadStores.LoadStore.Grow | engine/internal/congestion/loadstore.go:74-81 | extends the store with zeros and never changes a stored load |
| Vehicles.Vehicle.Advance | engine/internal/benchmark/simulator.go:448-493 | the in-place loop does exactly one tick of motion: missing, zero-length and negative-cost edges stepped over, leftover time carried across edge boundaries |
| Vehicles.AdvanceComposes | engine/internal/benchmark/simulator.go:448-493 | under a frozen load, advancing by a and then b is advancing by a+b |
| Vehicles.DriveTradesTime | engine/internal/benchmark/simulator.go:448-493 | under a frozen load, experienced time plus time still ahead never changes |
| Vehicles.DriveAccounts | engine/internal/benchmark/simulator.go:448-493 | under any load, a vehicle still under way has experienced the whole tick, one that finishes at most the tick, and it never stands beyond its edge |
| Vehicles.FrozenTrip | engine/internal/benchmark/simulator.go:448-493 | a trip under a frozen load has, after t seconds, experienced t or, once finished, exactly the summed cost of its traversable edges; it finishes once t exceeds that sum |
| Vehicles.FrozenTripCost | engine/internal/benchmark/simulator.go:448-493 | over edges with a length and a free-flow time, a trip under a frozen load takes the summed realized price of its edges at that load |
| Vehicles.StaysOnRoad | engine/internal/benchmark/simulator.go:467-488 | a vehicle that stays on one edge for t seconds covers t times its length over its cost at the load |
| Vehicles.SteppedOver | engine/internal/benchmark/simulator.go:452-466 | an edge that is missing, has no length, or costs nothing or less takes no time |
| ReleaseOrder.SortedRequestOrder | engine/internal/benchmark/simulator.go:560-572 | lists every request once by departure time, then input index |
| ReleaseOrder.OrderUnique | engine/internal/benchmark/simulator.go:560-572 | there is only one such list |
| Simulator.RouteBatch | engine/internal/benchmark/simulator.go:356-374 | routes every due request against one snapshot and makes one vehicle each, or names a due request without a route |
| Simulator.AdvanceAll | engine/internal/benchmark/simulator.go:379-390 | every vehicle moves by one tick; arrivals and vehicles under way are split in order |
| Simulator.ClearOccupied | engine/internal/benchmark/simulator.go:517-520 | clearing only the edges occupied a tick ago leaves every edge at zero |
| Simulator.LoadFromVehicles | engine/internal/benchmark/simulator.go:517-531 | the cheap clear-and-add equals recomputing the whole load from nothing, and returns every edge that now carries load |
| Simulator.RunTicks | engine/internal/benchmark/simulator.go:344-438 | the ticks are those of a run, each observed once and in order with its clock, counts, load and volume ratios; it ends at the first tick that leaves nothing to do, by the budget, or at a request without a route, and reports mean and 95th percentile of the experienced times |
| Simulator.Simulate | engine/internal/benchmark/simulator.go:293-439 | a missing router factory is an error; otherwise the run starts from the release order, the default tick length and the resolved budget |
| Evaluator.PercentileNearestRank | engine/internal/benchmark/evaluator.go:99-122 | the value of nearest rank: fewer than rank values lie below it, at least rank values do not exceed it |
| Evaluator.PercentileUnique | engine/internal/benchmark/evaluator.go:87-122 | that value is unique, so it does not depend on the order of the values |
| Evaluator.RankIs | engine/internal/benchmark/evaluator.go:108-121 | the first of the ranks from 1 to n that reaches p times n, or the last |
| Evaluator.MeanWeighs | engine/internal/benchmark/evaluator.go:77-86 | the mean of one value is that value, of none 0, and joining two lists adds up mean times length |
| Evaluator.EdgeVcRatios | engine/internal/benchmark/evaluator.go:135-157 | one ratio per edge in id order: load over effective capacity, zero without capacity or load |
| SimulationRuns.RunUnique | engine/internal/benchmark/simulator.go:344-438 | a run is a function of its inputs |
| SimulationRuns.EveryRequestOnce | engine/internal/benchmark/simulator.go:344-438 | after every tick each released request is exactly one trip, under way or completed, no other request is any, and released equals in flight plus completed |
| SimulationRuns.ReleasedWhenDue | engine/internal/benchmark/simulator.go:353-360 | after every tick the released requests are exactly those whose departure is not after the clock the tick started at |
| SimulationRuns.TripsUnderWay | engine/internal/benchmark/simulator.go:344-390 | every trip still under way was released in the first tick it was due, follows the route answered then, and has experienced exactly its ticks since |
| SimulationRuns.TripsCompleted | engine/internal/benchmark/simulator.go:380-388 | a trip completing in its n-th tick has experienced between n-1 and n ticks |
| SimulationRuns.LoadIsOccupancy | engine/internal/benchmark/simulator.go:392-397 | after every tick the load of each edge is the summed weight of the vehicles standing on it |
| TripProgress.UnderWayAtOccupancyPrices | engine/internal/benchmark/simulator.go:379-397 | a trip under way after a tick has in that tick left exactly dt seconds of its road behind, at the prices of the vehicles that stood on each road when the tick started |
| TripProgress.CompletedAtOccupancyPrices | engine/internal/benchmark/simulator.go:379-397 | a trip that completes in a tick had no more than dt seconds of its road left at those prices, and experienced exactly them |
| TripProgress.ObservedOccupancy | engine/internal/benchmark/simulator.go:538-557 | what an observer sees of a tick: its clock, the trips under way and completed, and on every edge the summed weight of the vehicles standing on it, also in shares of its capacity |
| SimulationRuns.DrainedIsComplete | engine/internal/benchmark/simulator.go:405-417 | a run that stops early has completed every request |
| SimulationRuns.ReportIsHonest | engine/internal/benchmark/simulator.go:405-438 | completed never exceeds released nor released the demand; fewer completed than released only at the tick budget |
| SimulationRuns.EmptyRun | engine/internal/benchmark/simulator.go:287-288 | a run without requests takes one tick and observes it, not zero as its comment says; its counts, mean and percentile are zero |
| SimulationRuns.DerivedBudgetSuffices | engine/internal/benchmark/simulator.go:580-598 | under the derived budget every request is released and only trips that have travelled for 300000 seconds are cut off |
| SimulationRuns.DefaultBudgetIs | engine/internal/benchmark/simulator.go:580-598 | the derived budget is the tick the latest departure falls in, one more, and as many as cover 300000 seconds |
| SimulationRuns.KeepsBudget | engine/internal/benchmark/simulator.go:315-344 | a positive tick budget is never exceeded, and a run that leaves trips unfinished has used all of it |
| Stream.BucketIsBand | engine/internal/api/stream.go:78-91 | the bucket of a ratio is the one of 24 bands of width 0.1, edges lowered by a ten-billionth, that it lies in; the last is open above |
| Stream.BucketMonotone | engine/internal/api/stream.go:78-91 | a higher ratio never falls into a lower bucket |
| Stream.CollectChanges | engine/internal/api/stream.go:748-773 | whatever order the index is walked in, the entries are exactly the edges whose bucket differs from the last one sent, in id order, and the last buckets end up to date |
| Frames.ListingUnique | engine/internal/api/stream.go:741-764 | a set of entries has one listing in id order, so frames do not depend on map order |
| Stream.UpdatedIsBucketed | engine/internal/api/stream.go:748-764 | updating only what changed leaves the full bucketed state of the tick |
| Stream.NewReplayState | engine/internal/api/stream.go:631-661 | each algorithm starts at its first tick, if any, with a full snapshot of it; one without ticks starts empty |
| Stream.ReplayState.Visit | engine/internal/api/stream.go:672-690 | one turn of one algorithm passes every tick that is due, and sends one delta for the last of them or nothing |
| Stream.ReplayState.Advance | engine/internal/api/stream.go:668-693 | one server tick: the clock moves by the step, then every algorithm takes its turn in order on the ticks it read when its turn came |
| Stream.ReplayState.Done | engine/internal/api/stream.go:700-716 | true exactly when the producer has finished and every produced tick was sent |
| Stream.ReplayRest | engine/internal/api/stream.go:558-586 | after the producer finished, replay ends with every tick replayed after exactly as many server ticks as the clock needs to reach the last tick not yet replayed, and at least one |
| Stream.TicksToDrainIs | engine/internal/api/stream.go:668-693 | n server ticks bring the clock past every tick not yet replayed exactly when n is at least the largest offset left, less the clock, over the step, rounded up |
| CongestionClient.EmptyCongestionState | web/src/lib/congestion.ts:32-44 | every algorithm starts with an empty map, tick zero, no time and no metrics |
| CongestionClient.ReduceCongestion | web/src/lib/congestion.ts:50-102 | a snapshot replaces the map of its algorithm, a delta is written over it; the slots of all other algorithms stay as they were |
| CongestionClient.WrittenAt | web/src/lib/congestion.ts:50-70 | after writing a frame, an id has the bucket of its entry, or what it had when there is none |
| CongestionClient.SnapshotReplaces | web/src/lib/congestion.ts:50-57 | after a snapshot its algorithm shows what the snapshot lists and nothing else, whatever was shown before |
| CongestionClient.DeltaOverwrites | web/src/lib/congestion.ts:59-71 | after a delta its algorithm shows the listed buckets, and what it showed before for every other id |
| CongestionClient.FrameIsRecorded | web/src/lib/congestion.ts:73-90 | either kind of frame brings its tick, its time and its metrics |
| StreamRuns.DeltaFolds | web/src/lib/congestion.ts:63-70 | a client at one tick that folds the delta to another shows the bucketed state of the other; other algorithms are untouched |
| StreamRuns.StepInv | engine/internal/api/stream.go:631-716 | every producer append, finish, server tick, turn, frame written and check keeps cursor, last buckets and client, once it has the frames under way, of every algorithm at the same tick |
| StreamRuns.ClientFoldsFrames | web/src/lib/congestion.ts:63-102 | in every interleaving the states the client goes through are the fold of the frames sent |
| StreamRuns.ClientTracksServer | engine/internal/api/stream.go:631-768 | in every interleaving, with the frames still to be written folded in, the client shows per algorithm exactly the bucketed state, tick, time and metrics of the last tick the cursor passed; it shows that already while no such frame is the algorithm's, so between any two rounds |
| StreamRuns.DeltaIsExact | engine/internal/api/stream.go:748-768 | each delta carries exactly the segments whose bucket differs between the tick last passed and the tick jumped to |
| StreamContents.ClientShowsRatios | engine/internal/api/stream.go:721-794 | over every run the client shows for every edge the band of its ratio in the last tick passed, 0 for an edge outside the vector, and nothing else |
| StreamContents.SnapshotCarriesTick | engine/internal/api/stream.go:721-744 | the opening snapshot of an algorithm lists every edge with its ratio in the first tick and its band; without a tick it lists nothing |
| StreamContents.DeltaCarriesTick | engine/internal/api/stream.go:748-794 | over every run a delta carries the ratios of the tick its turn jumps to, and lists an edge exactly when its band there differs from the one in the tick passed before |
| StreamContents.TurnPassesDue | engine/internal/api/stream.go:668-690 | over every run a turn passes exactly the ticks whose offset from the first tick of the algorithm the clock has reached, one step for each server tick so far |
| StreamRuns.StoppedIsComplete | engine/internal/api/stream.go:700-716 | the stream ends only after the producer finished, with every tick passed, every frame written and the last tick of every algorithm on the client |
| StreamRuns.OpenStream | engine/internal/api/stream.go:631-661 | opening a replay over ready buffers gives a state every run can start from, the snapshots still to be written |
| StreamRuns.StoppedIsFinal | engine/internal/api/stream.go:578-586 | nothing happens after the end |
| StreamEndings.ReplayEnds | engine/internal/api/stream.go:558-586 | in every interleaving, wherever in a round the producer finishes, at most as many server ticks follow as the clock needs to reach the last tick (one at least), and fewer than fourteen steps for each and for the round begun: server tick, six turns, six frames, check |
| StreamEndings.NeverStuck | engine/internal/api/stream.go:558-586 | until the stream has stopped the replay has a step to take, writing included |
| LiveBuffers.WakeupNeverMissed | engine/internal/api/stream.go:470-522 | in every interleaving, a waiter that blocks although it could go on has a token in the channel or a signal on its way |
| LiveBuffers.WaiterReturns | engine/internal/api/stream.go:501-522 | from then on some wakeup step is always possible and each one brings the return of the waiter closer |
| LiveBuffers.ReturnedIsReady | engine/internal/api/stream.go:501-522 | the waiter goes on only when every algorithm has a tick or no more will come |
| LiveBuffers.BuffersInOrder | engine/internal/api/stream.go:480-498 | over every interleaving each buffer holds the ticks of its algorithm in the order they were emitted, none lost |
| LiveBuffers.Store.Emit | engine/internal/api/stream.go:480-485 | on the store, an uninterrupted emit is the append step and then the signal step of the protocol |
| LiveBuffers.Store.Finish | engine/internal/api/stream.go:488-494 | on the store, an uninterrupted finish is the conclude step, with the error kept, and then the signal step |
| LiveBuffers.Store.CheckReady | engine/internal/api/stream.go:501-522 | the waiter goes on exactly when every algorithm has a tick or the producer has finished, else it waits: the check step of the protocol |
| UnionFinds.HalvingKeepsRoots | engine/internal/graph/connectivity.go:153-159 | path halving keeps ranks rising along links and changes the root of no element |
| UnionFinds.LinkingMovesRoots | engine/internal/graph/connectivity.go:162-176 | union by rank keeps ranks rising and moves exactly the elements of one root to the other |
| UnionFinds.UnionFind.Find | engine/internal/graph/connectivity.go:153-159 | terminates with the root and changes no root |
| UnionFinds.UnionFind.Union | engine/internal/graph/connectivity.go:162-176 | two elements share a root afterwards iff they did before or one was with each end |
| Connectivity.SameRootIffConnected | engine/internal/graph/connectivity.go:66-74 | after all unions two nodes share a root iff an undirected chain of edges joins them |
| Connectivity.Tally | engine/internal/graph/connectivity.go:80-89 | counts each class and finds its lowest node, without changing any root |
| Connectivity.LargestClass | engine/internal/graph/connectivity.go:101-108 | picks a class no other beats by size, then by lowest node, whatever order the map is walked in |
| Connectivity.LargestUnique | engine/internal/graph/connectivity.go:101-108 | that class is the only one |
| Connectivity.WarnIfNotWeaklyConnected | engine/internal/graph/connectivity.go:59-135 | silent exactly when every node reaches every other; else the counts, the largest component and the ascending capped sample of the nodes outside it |
| Connectivity.FractionIs | engine/internal/graph/connectivity.go:110-135 | the fraction a warning gives is that of the largest component among all nodes |
| KdTrees.KdTree.Build | engine/internal/graph/kdtree.go:121-139 | lays out the subtree in preorder behind what was there, median-ordered on each axis, over exactly the given points |
| KdTrees.NewKdTree | engine/internal/graph/kdtree.go:94-115 | every point is in exactly one node |
| KdTrees.HeightIsLogarithmic | engine/internal/graph/kdtree.go:119-139 | with the median at every node the tree is no higher than one more than the logarithm of the number of points |
| KdTrees.ChildrenFollow | engine/internal/graph/kdtree.go:131-138 | children lie at larger node indices than their parent |
| KdTrees.PrunedFar | engine/internal/graph/kdtree.go:203-210 | when the bound of the splitting plane is no less than the best distance, nothing on the far side is better |
| KdTrees.Search | engine/internal/graph/kdtree.go:176-210 | the result beats or ties the best so far and every point of the subtree, and is one of them |
| KdTrees.Nearest | engine/internal/graph/kdtree.go:153-171 | finds a point at minimum distance over all points, for any distance with a monotone per-axis bound that never over-estimates; none exactly when there are no points |
| KdTrees.PlanarIsAdmissible | engine/internal/graph/kdtree.go:24-50 | the assumptions on distance and bound are satisfiable |
| Adjacency.PrefixSums | engine/internal/graph/adjacency.go:94-96 | turns counts into start offsets in place |
| Adjacency.Scatter | engine/internal/graph/adjacency.go:97-103 | the run of each node holds exactly the edges leaving it, in increasing id order |
| Adjacency.New | engine/internal/graph/adjacency.go:56-115 | fails exactly when ids are not dense or an endpoint is no node, naming the first element at fault; else the arrays are the compressed rows of the graph and the tree an index of its node positions |
| Adjacency.AdjacencyGraph.OutEdgeIds | engine/internal/graph/adjacency.go:150-160 | exactly the edges leaving the node in increasing id order, none for an unknown node |
| Adjacency.AdjacencyGraph.Neighbors | engine/internal/graph/adjacency.go:121-134 | the edges behind those ids, in the same order |
| Adjacency.AdjacencyGraph.NearestNode | engine/internal/graph/adjacency.go:195-202 | a node at minimum distance over all nodes, none exactly when there are no nodes |
| Loader.RecordNodePos | engine/internal/graph/loader.go:556-566 | the first position of a node stays; a later one beyond the tolerance is rejected |
| Loader.EveryIdUsed | engine/internal/graph/loader.go:364-366 | distinct edge ids in range use every id, so no slot is left empty |
| Loader.CheckRow | engine/internal/graph/loader.go:303-347 | a row passes exactly when its own checks hold (identifier, road class, positive fields, coordinates within the world and the expected window, length against chord, ranges) and it repeats no edge id or segment id and contradicts no recorded node position |
| Loader.Renumber | engine/internal/graph/loader.go:347-361 | the nodes are the recorded ids numbered from zero in increasing order, an order-preserving bijection, whatever order the map is walked in |
| Loader.Load | engine/internal/graph/loader.go:281-383 | accepts exactly the non-empty exports all of whose rows pass, given a sensible expected window, else names the first fault; on acceptance building the graph cannot fail |
| LoadedExports.LoadedEdge | engine/internal/graph/loader.go:363-383 | the edge at the id of a row leads from the renumbered source of the row to its renumbered target and has the segment, length, free-flow time and capacity of the row; the line is kept under the segment |
| LoadedExports.LoadedEnds | engine/internal/graph/loader.go:347-383 | its end nodes lie within a ten-millionth of a degree of the first and the last pair of the line, latitude second, longitude first |
| LoadedExports.LoadedNumbers | engine/internal/graph/loader.go:347-361 | the node ids of the export are numbered from zero in increasing order |
| LoadedExports.RowValidIff | engine/internal/graph/loader.go:409-544 | the checks of one row: identifiers that agree, a listed road class, positive fields, a line of two pairs at least within the world and the window, and a length no shorter than the chord |
| LoadedExports.WindowIs | engine/internal/graph/loader.go:226-232 | an expected window makes sense when it is a box of the world |
| LoadedExports.AcceptedIff | engine/internal/graph/loader.go:281-345 | every row passes exactly when each meets its own checks, repeats no edge or segment id, and puts its end nodes where they were first put |
| SegmentIds.ParseOfFormat | engine/internal/domain/segmentid.go:32-99 | a formatted key parses back to its fields exactly when the way is positive, the ordinal not negative, both within 64 bits and the direction one of the two |
| SegmentIds.KeyText | engine/internal/domain/segmentid.go:32-44 | a key reads as its way and its ordinal in digits and the letter F or R |
| SegmentIds.WrittenInDigits | engine/internal/domain/segmentid.go:32-44 | a number is written in its decimal digits without a leading zero |
| SegmentIds.WrongCountIff | engine/internal/domain/segmentid.go:55-60 | a string is rejected for its number of fields, counted up to four, exactly when it does not have two colons |
| SegmentIds.FirstFault | engine/internal/domain/segmentid.go:61-93 | with two colons, the first field at fault is reported: a way or ordinal not in canonical digits or beyond 64 bits, a way of zero, another letter; without a fault the string is accepted |
| SegmentIds.FormatOfParse | engine/internal/domain/segmentid.go:32-121 | formatting what an accepted string parsed to gives back that string |
| SegmentIds.AcceptedIffFormatted | engine/internal/domain/segmentid.go:52-121 | the accepted strings are exactly the formatted keys |
| SegmentIds.NoAliases | engine/internal/domain/segmentid.go:98-121 | no two accepted strings name one segment |
| RateLimits.RateLimiter.Allow | engine/internal/api/middleware.go:248-279 | one request: sweep when due, refill up to the burst, take a token or report the wait |
| RateLimits.RateLimiter.SweepLocked | engine/internal/api/middleware.go:283-293 | drops exactly the buckets idle for idleTTL, at most once per interval |
| RateLimits.AnswerIs | engine/internal/api/middleware.go:248-293 | a request is admitted exactly when the bucket, refilled at the rate up to the burst or full if new or dropped, holds a token, which it pays; else the wait told is the missing part over the rate in whole nanoseconds |
| RateLimits.SameAnswers | engine/internal/api/middleware.go:248-293 | when the refill over idleTTL covers the burst, the evicting limiter answers every request as one that keeps all buckets |
| RateLimits.EvictionNoticed | engine/internal/api/middleware.go:280-293 | when it does not, a client that spends a burst, stays away for idleTTL and spends again is answered differently |
| RateLimits.EvictionInvisibleIff | engine/internal/api/middleware.go:280-293 | eviction is invisible to every client exactly when rps times idleTTL is at least the burst |
| RateLimits.WindowBound | engine/internal/api/middleware.go:248-293 | in any window one key is admitted at most burst plus rps times the length of the window, whatever other keys do |
| RateLimits.RetryAdmits | engine/internal/api/middleware.go:266-278 | a denied client that stays away is admitted exactly when it has waited for the missing fraction of a token; the reported wait is that, cut off to whole nanoseconds |
| RateLimits.RetryHonestIff | engine/internal/api/middleware.go:248-293 | for every configuration, with a clock in whole nanoseconds: every client that waits as long as it is told is admitted exactly when one token takes a whole number of nanoseconds to refill, or takes one at least while no bucket outlives one |
| RateLimits.RunWhole | engine/internal/api/middleware.go:248-293 | with a whole number of nanoseconds to a token every bucket, kept or dropped and come back full, always holds what some whole number of nanoseconds refills |
| RateLimits.StayingAwayRefills | engine/internal/api/middleware.go:248-293 | a denied client that stays away finds at least what it had and what the time refills, whether its bucket is kept or dropped |
| RateLimits.AskingClientDenied | engine/internal/api/middleware.go:248-293 | otherwise a client that spends a burst and then asks once every nanosecond, so that its bucket is never idle for long, is in the end told to come back at once and turned away again |
| RateLimits.ShortLivedIsHonest | engine/internal/api/middleware.go:248-293 | where a bucket lasts for a nanosecond at most and a token takes one at least, whoever waits as told finds a full bucket |
| RateLimits.TruncatedWithin | engine/internal/api/middleware.go:277 | the reported wait falls short of the needed one by less than a nanosecond |
| RateLimits.RetryCanFallShort | engine/internal/api/middleware.go:274-278 | a concrete case where waiting exactly the reported time is not enough |
| CacheKeys.KeyNamesTuple | engine/internal/api/benchmark.go:116-123 | two parameter tuples print as one key exactly when they agree once defaults are filled in, whatever the algorithm is called |
| CacheKeys.SameKeyIff | engine/internal/api/benchmark.go:96-126 | two tuples share a key exactly when every parameter takes effect alike, unset ones as all, 0.15, 4, 1 and 1000 |
| CacheKeys.KeyReads | engine/internal/api/benchmark.go:119-126 | the text of the key of a tuple with nothing unset |
| CacheKeys.PrintedIsValid | engine/internal/api/benchmark.go:116-123 | the printed key is one of the keyings the results about the job store are stated for |
| CacheKeys.DefaultsIdempotent | engine/internal/api/benchmark.go:96-114 | filling defaults twice is filling them once, so a stored job keeps its key |
| CacheKeys.HundredthsPrint | engine/internal/api/benchmark.go:116-123 | the assumptions on how numbers print are satisfiable |
| JobStores.JobStore.GetOrCreate | engine/internal/api/benchmark.go:204-222 | returns the job the key of the tuple leads to, or registers a new running one after making room, and changes nothing else |
| JobStores.JobStore.EvictOldestDone | engine/internal/api/benchmark.go:226-248 | the loop over the listing is the eviction the lemmas speak of |
| JobStores.EvictsOldestIdle | engine/internal/api/benchmark.go:226-248 | eviction drops the oldest job that is not running and nothing else; nothing when all are running |
| JobStores.RoomKeepsRunning | engine/internal/api/benchmark.go:226-236 | no running job is lost, and at capacity a slot is freed unless every job is running |
| JobStores.KeyLeadsToLiveJob | engine/internal/api/benchmark.go:178-184 | a key leads to a job exactly when that job has this tuple and has not failed |
| JobStores.OneLiveJob | engine/internal/api/benchmark.go:178-184 | at most one job of a tuple has not failed |
| JobStores.CreatedFits | engine/internal/api/benchmark.go:204-236 | a request takes a store within capacity beyond it exactly when the tuple is new, the store full and every job running |
| JobStores.JobStore.Remove | engine/internal/api/benchmark.go:252-263 | the first listing entry of the id, its job and its key go |
| JobStores.CompletedCoherentIff | engine/internal/api/benchmark.go:271-288 | recording an end keeps the registry coherent exactly when it is not a success of a job that has failed |
| JobStores.CompletedRecords | engine/internal/api/benchmark.go:271-288 | an end is recorded on its job alone: a success with its report, a failure with its message |
| JobStores.FailureFreesTuple | engine/internal/api/benchmark.go:265-288 | a recorded failure frees its tuple, so the next request starts a new job |
| JobStores.RunCoherent | engine/internal/api/benchmark.go:204-288 | over every sequence of calls with fresh ids and success recorded only for running jobs, the listing names each job once and keys lead exactly to the live jobs |
| JobStores.RunningSurvives | engine/internal/api/benchmark.go:226-236 | over every such sequence a running job stays until a call names it |
| JobStores.CallTakesEffect | engine/internal/api/benchmark.go:204-288 | over every such sequence a request leaves a job of its tuple that has not failed, registered under its key; a removal no job of that id; a completion its end on the job |
| JobStores.RunBounded | engine/internal/api/benchmark.go:204-236 | over every such sequence in which fewer than maxJobs run whenever a job is requested, there are never more than maxJobs jobs |
| JobStores.PrintedKeyLeadsToLiveJob | engine/internal/api/benchmark.go:204-288 | in a store keyed by the printed text, over every such sequence, the text of a tuple leads to a job exactly when that is the live job of the tuple |
| JobStores.PrintedRunBounded | engine/internal/api/benchmark.go:204-236 | and in such a store there are never more than maxJobs jobs while fewer than that run whenever one is requested |

## Left out

- Bpr.PowBeta: takes a natural exponent; the fractional powers of `math.Pow` are not modelled.
- AStar.ChordHeuristicConsistent: takes the triangle inequality of the distance as given; the
  great-circle formula is not modelled.
- KdTrees.Nearest: takes monotone axis bounds as given, which the longitude bound meets only for
  networks that do not cross the antimeridian.
- Loader.Load: starts from decoded rows; the envelope, the size limit and JSON decoding are not
  modelled.
- Simulator.Simulate: the batch is routed one request after the other instead of by concurrent
  workers, so when several due requests have no route it names the first of them.
- CacheKeys.KeyNamesTuple: takes for granted that different numbers print differently and
  without a field separator, as the shortest form of a float does.
- RateLimits.RateLimiter.Allow: the clock never runs backwards in the results about runs.
- KShortest.KShortestPaths: edge ids are 32-bit, as in the engine, so at most 2^31 edges.
- Float rounding, NaN and infinities in the input data; negative weights, which the engine's
  contract rules out.
- Cancellation of contexts in every router and in the simulator.
- Random route choice, demand generation and the synthetic congestion step: seeded random draws.
- HTTP handlers, WebSocket and JSON plumbing, authentication, metrics, logging, command lines.
- Reports, sweeps, demand curves and price-of-anarchy figures: formatting over the results above.
- The naive and reactive single-shot routers: one call of the shortest-path core.
- The map user interface and the data pipeline.
