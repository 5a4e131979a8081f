/** One simulation run as a function of its inputs: what a tick does to the state of the run. */
module Ticks {
  import opened Results
  import opened Vectors
  import opened Assignment
  import opened Pricing
  import opened LoadStores
  import opened Vehicles
  import opened ReleaseOrder

  /** A released request and where it is; `since` is the tick it was released in. */
  datatype Trip = Trip(request: nat, weight: real, edges: seq<int>, since: nat, now: Motion)

  /** What one run is given. `route` answers one request against one load snapshot. */
  datatype Setup = Setup(
    net: Network, reqs: seq<Departure>, order: seq<nat>, route: (Vec, Request) -> Option<seq<int>>, dt: real) {

    ghost predicate Valid() { IsOrder(reqs, order) && dt > 0.0 }
  }

  /** Everything that happened by the end of a tick. */
  datatype Progress = Progress(next: nat, flying: seq<Trip>, landed: seq<Trip>, loads: Vec)

  /** The time covered by so many ticks. */
  function Clock(setup: Setup, ticks: nat): real {
    if ticks == 0 then 0.0 else Clock(setup, ticks - 1) + setup.dt
  }

  lemma {:induction false} ClockIsProduct(setup: Setup, ticks: nat)
    ensures Clock(setup, ticks) == ticks as real * setup.dt
  {
    if ticks > 0 {
      ClockIsProduct(setup, ticks - 1);
    }
  }

  /** The first position at or after `next` whose request is not yet due. */
  function Due(setup: Setup, next: nat, clock: real): (n: nat)
    requires next <= |setup.order| && forall i :: 0 <= i < |setup.order| ==> setup.order[i] < |setup.reqs|
    ensures next <= n <= |setup.order|
    decreases |setup.order| - next
  {
    if next < |setup.order| && setup.reqs[setup.order[next]].departAt <= clock then Due(setup, next + 1, clock)
    else next
  }

  lemma {:induction false} DueStops(setup: Setup, next: nat, clock: real)
    requires next <= |setup.order| && forall i :: 0 <= i < |setup.order| ==> setup.order[i] < |setup.reqs|
    ensures var n := Due(setup, next, clock);
      && (forall i :: next <= i < n ==> setup.reqs[setup.order[i]].departAt <= clock)
      && (n < |setup.order| ==> setup.reqs[setup.order[n]].departAt > clock)
    decreases |setup.order| - next
  {
    if next < |setup.order| && setup.reqs[setup.order[next]].departAt <= clock {
      DueStops(setup, next + 1, clock);
    }
  }

  /** The requests at order[lo..hi], routed against one snapshot; None if some request has no route. */
  function Released(setup: Setup, lo: nat, hi: nat, tick: nat, loads: Vec): Option<seq<Trip>>
    requires lo <= hi <= |setup.order| && forall i :: 0 <= i < |setup.order| ==> setup.order[i] < |setup.reqs|
  {
    if lo == hi then Some([])
    else
      var before := Released(setup, lo, hi - 1, tick, loads);
      var req := setup.reqs[setup.order[hi - 1]].request;
      var path := setup.route(loads, req);
      if before.None? || path.None? then None
      else Some(before.value + [Trip(setup.order[hi - 1], RequestWeight(req), path.value, tick, AT_ORIGIN)])
  }

  function Moved(setup: Setup, loads: Vec, trips: seq<Trip>): (r: seq<Trip>)
    ensures |r| == |trips|
  {
    seq(|trips|, i requires 0 <= i < |trips| =>
      trips[i].(now := Advanced(setup.net, loads, trips[i].edges, trips[i].now, setup.dt)))
  }

  /** The trips among the first n that have (or have not) arrived, in order. */
  function Arrived(trips: seq<Trip>, n: nat, done: bool): seq<Trip>
    requires n <= |trips|
  {
    if n == 0 then []
    else if trips[n - 1].now.done == done then Arrived(trips, n - 1, done) + [trips[n - 1]]
    else Arrived(trips, n - 1, done)
  }

  /** The edge a trip occupies, if any. */
  function Occupies(t: Trip): Option<int> {
    if t.now.edgeIndex < |t.edges| then Some(t.edges[t.now.edgeIndex]) else None
  }

  /** The whole load recomputed from nothing: zero every edge, then add each of the first n trips. */
  function Recomputed(loads: Vec, trips: seq<Trip>, n: nat): (z: Vec)
    requires n <= |trips|
    ensures |z| >= |loads|
  {
    if n == 0 then Zeros(|loads|)
    else
      var z := Recomputed(loads, trips, n - 1);
      var edge := Occupies(trips[n - 1]);
      if edge.None? then z else With(z, edge.value, LoadAt(z, edge.value) + trips[n - 1].weight)
  }

  /** One tick: release and route what is due, advance everyone, recompute the load. */
  function Tick(setup: Setup, tick: nat, p: Progress): (r: Option<Progress>)
    requires p.next <= |setup.order| && forall i :: 0 <= i < |setup.order| ==> setup.order[i] < |setup.reqs|
    requires tick > 0
    ensures r.Some? ==> p.next <= r.value.next <= |setup.order|
  {
    var next := Due(setup, p.next, Clock(setup, tick - 1));
    var released := Released(setup, p.next, next, tick, p.loads);
    if released.None? then None
    else
      var moved := Moved(setup, p.loads, p.flying + released.value);
      var flying := Arrived(moved, |moved|, false);
      Some(Progress(next, flying, p.landed + Arrived(moved, |moved|, true),
                    Recomputed(p.loads, flying, |flying|)))
  }

  function Start(setup: Setup): Progress {
    Progress(0, [], [], Zeros(setup.net.Size()))
  }

  /** run[k] is one tick after run[k-1]. */
  ghost predicate Linked(setup: Setup, run: seq<Progress>, k: nat)
    requires IsOrder(setup.reqs, setup.order) && 0 < k < |run|
  {
    run[k - 1].next <= |setup.order| && Tick(setup, k, run[k - 1]) == Some(run[k])
  }

  /** The states of a run so far: run[k] is the state after k ticks. */
  ghost predicate IsRun(setup: Setup, run: seq<Progress>) {
    && setup.Valid() && |run| > 0 && run[0] == Start(setup)
    && forall k :: 0 < k < |run| ==> Linked(setup, run, k)
  }

  predicate Drained(setup: Setup, p: Progress) {
    p.flying == [] && p.next >= |setup.order|
  }
}
