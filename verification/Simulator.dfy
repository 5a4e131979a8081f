/** The discrete-time simulation of a whole demand: release, route, advance, re-derive the load. */
module Simulator {
  import opened Results
  import opened Vectors
  import opened Assignment
  import opened Pricing
  import opened Evaluator
  import opened LoadStores
  import opened Vehicles
  import opened ReleaseOrder
  import opened Ticks

  /** A vehicle together with what the run remembers about it. */
  ghost function TripOf(v: Vehicle, since: nat): Trip
    reads v
  {
    Trip(v.request, v.weight, v.edges, since, v.Now())
  }

  ghost predicate Distinct(fleet: seq<Vehicle>) {
    forall i, j :: 0 <= i < j < |fleet| ==> fleet[i] != fleet[j]
  }

  /** The fleet of vehicle objects represents these trips. */
  ghost predicate Represents(fleet: seq<Vehicle>, trips: seq<Trip>)
    reads fleet
  {
    |fleet| == |trips| && forall i :: 0 <= i < |fleet| ==> trips[i] == TripOf(fleet[i], trips[i].since)
  }

  /** Releases one tick's batch: one fresh vehicle per request, all routed against one snapshot. */
  method RouteBatch(setup: Setup, lo: nat, hi: nat, ghost tick: nat, snapshot: Vec)
    returns (r: Result<seq<Vehicle>, nat>)
    requires IsOrder(setup.reqs, setup.order) && lo <= hi <= |setup.order|
    ensures r.Ok? ==> fresh(r.value) && Distinct(r.value)
    ensures r.Ok? ==> Released(setup, lo, hi, tick, snapshot).Some?
                      && Represents(r.value, Released(setup, lo, hi, tick, snapshot).value)
    ensures r.Err? ==> Released(setup, lo, hi, tick, snapshot).None?
                       && r.error in setup.order[lo..hi]
                       && setup.route(snapshot, setup.reqs[r.error].request).None?
  {
    var batch: seq<Vehicle> := [];
    var n := lo;
    while n < hi
      invariant lo <= n <= hi && fresh(batch) && Distinct(batch)
      invariant Released(setup, lo, n, tick, snapshot).Some?
      invariant Represents(batch, Released(setup, lo, n, tick, snapshot).value)
    {
      var index := setup.order[n];
      var path := setup.route(snapshot, setup.reqs[index].request);
      if path.None? {
        NoneStays(setup, lo, n + 1, hi, tick, snapshot);
        return Err(index);
      }
      var vehicle := new Vehicle(index, RequestWeight(setup.reqs[index].request), path.value);
      batch, n := batch + [vehicle], n + 1;
    }
    return Ok(batch);
  }

  lemma {:induction false} NoneStays(setup: Setup, lo: nat, n: nat, hi: nat, tick: nat, loads: Vec)
    requires IsOrder(setup.reqs, setup.order) && lo <= n <= hi <= |setup.order|
    requires Released(setup, lo, n, tick, loads).None?
    ensures Released(setup, lo, hi, tick, loads).None?
  {
    if n < hi {
      NoneStays(setup, lo, n, hi - 1, tick, loads);
    }
  }

  /** The vehicles among the first n whose trips have (or have not) arrived, in order. */
  ghost function Picked(fleet: seq<Vehicle>, trips: seq<Trip>, n: nat, done: bool): (r: seq<Vehicle>)
    requires n <= |trips| == |fleet|
    ensures forall v :: v in r ==> v in fleet[..n]
  {
    if n == 0 then []
    else
      assert fleet[..n] == fleet[..n - 1] + [fleet[n - 1]];
      if trips[n - 1].now.done == done then Picked(fleet, trips, n - 1, done) + [fleet[n - 1]]
      else Picked(fleet, trips, n - 1, done)
  }

  lemma RepresentsSnoc(fleet: seq<Vehicle>, trips: seq<Trip>, v: Vehicle, t: Trip)
    requires Represents(fleet, trips) && t == TripOf(v, t.since)
    ensures Represents(fleet + [v], trips + [t])
  {
  }

  lemma DistinctSnoc(fleet: seq<Vehicle>, v: Vehicle)
    requires Distinct(fleet) && v !in fleet
    ensures Distinct(fleet + [v])
  {
  }

  lemma {:induction false} PickedRepresents(fleet: seq<Vehicle>, trips: seq<Trip>, n: nat, done: bool)
    requires Represents(fleet, trips) && n <= |fleet|
    ensures Represents(Picked(fleet, trips, n, done), Arrived(trips, n, done))
  {
    if n > 0 {
      PickedRepresents(fleet, trips, n - 1, done);
      if trips[n - 1].now.done == done {
        RepresentsSnoc(Picked(fleet, trips, n - 1, done), Arrived(trips, n - 1, done), fleet[n - 1], trips[n - 1]);
      }
    }
  }

  lemma {:induction false} PickedDistinct(fleet: seq<Vehicle>, trips: seq<Trip>, n: nat, done: bool)
    requires Distinct(fleet) && n <= |fleet| == |trips|
    ensures Distinct(Picked(fleet, trips, n, done))
  {
    if n > 0 {
      PickedDistinct(fleet, trips, n - 1, done);
      if trips[n - 1].now.done == done {
        assert fleet[n - 1] !in fleet[..n - 1];
        DistinctSnoc(Picked(fleet, trips, n - 1, done), fleet[n - 1]);
      }
    }
  }

  lemma SplitFleet(fleet: seq<Vehicle>, trips: seq<Trip>)
    requires Represents(fleet, trips) && Distinct(fleet)
    ensures var flying, arrived := Picked(fleet, trips, |fleet|, false), Picked(fleet, trips, |fleet|, true);
      && Represents(flying, Arrived(trips, |trips|, false)) && Distinct(flying)
      && Represents(arrived, Arrived(trips, |trips|, true))
  {
    PickedRepresents(fleet, trips, |fleet|, false);
    PickedRepresents(fleet, trips, |fleet|, true);
    PickedDistinct(fleet, trips, |fleet|, false);
  }

  /** The first n vehicles have moved, the others have not. */
  ghost predicate MovedBelow(fleet: seq<Vehicle>, trips: seq<Trip>, moved: seq<Trip>, n: nat)
    reads fleet
  {
    && |fleet| == |trips| == |moved|
    && (forall j :: 0 <= j < n <= |fleet| ==> moved[j] == TripOf(fleet[j], moved[j].since))
    && forall j :: n <= j < |fleet| ==> trips[j] == TripOf(fleet[j], trips[j].since)
  }

  method AdvanceOne(setup: Setup, fleet: seq<Vehicle>, load: LoadStore, ghost trips: seq<Trip>,
                    ghost moved: seq<Trip>, n: nat)
    requires n < |fleet| && Distinct(fleet) && MovedBelow(fleet, trips, moved, n)
    requires moved == Moved(setup, load.loads, trips)
    modifies fleet[n]
    ensures MovedBelow(fleet, trips, moved, n + 1) && fleet[n].done == moved[n].now.done
  {
    assert trips[n] == TripOf(fleet[n], trips[n].since);
    fleet[n].Advance(setup.net, load, setup.dt);
  }

  /** The first n vehicles of the fleet, split into those still under way and those that arrived. */
  ghost predicate SplitBelow(fleet: seq<Vehicle>, moved: seq<Trip>, n: nat, flying: seq<Vehicle>, arrived: seq<Vehicle>)
    requires n <= |fleet| == |moved|
  {
    flying == Picked(fleet, moved, n, false) && arrived == Picked(fleet, moved, n, true)
  }

  lemma SplitNext(fleet: seq<Vehicle>, moved: seq<Trip>, n: nat, flying: seq<Vehicle>, arrived: seq<Vehicle>)
    requires n < |fleet| == |moved| && SplitBelow(fleet, moved, n, flying, arrived)
    ensures SplitBelow(fleet, moved, n + 1, if moved[n].now.done then flying else flying + [fleet[n]],
                       if moved[n].now.done then arrived + [fleet[n]] else arrived)
  {
  }

  lemma SplitIsOfFleet(fleet: seq<Vehicle>, moved: seq<Trip>, flying: seq<Vehicle>, arrived: seq<Vehicle>)
    requires Represents(fleet, moved) && Distinct(fleet) && SplitBelow(fleet, moved, |fleet|, flying, arrived)
    ensures Represents(flying, Arrived(moved, |moved|, false)) && Represents(arrived, Arrived(moved, |moved|, true))
    ensures Distinct(flying) && forall v :: v in flying || v in arrived ==> v in fleet
  {
    SplitFleet(fleet, moved);
  }

  /** Advances one vehicle and puts it on the list it belongs to. */
  method AdvanceNext(setup: Setup, fleet: seq<Vehicle>, load: LoadStore, ghost trips: seq<Trip>, ghost moved: seq<Trip>,
                     n: nat, flying: seq<Vehicle>, arrived: seq<Vehicle>)
    returns (flying': seq<Vehicle>, arrived': seq<Vehicle>)
    requires n < |fleet| && Distinct(fleet) && MovedBelow(fleet, trips, moved, n)
    requires moved == Moved(setup, load.loads, trips) && SplitBelow(fleet, moved, n, flying, arrived)
    modifies fleet[n]
    ensures MovedBelow(fleet, trips, moved, n + 1) && SplitBelow(fleet, moved, n + 1, flying', arrived')
  {
    AdvanceOne(setup, fleet, load, trips, moved, n);
    SplitNext(fleet, moved, n, flying, arrived);
    if fleet[n].done {
      return flying, arrived + [fleet[n]];
    }
    return flying + [fleet[n]], arrived;
  }

  /** Advances every vehicle; splits the fleet into those still under way and those that arrived. */
  method AdvanceAll(setup: Setup, fleet: seq<Vehicle>, load: LoadStore, ghost trips: seq<Trip>)
    returns (flying: seq<Vehicle>, arrived: seq<Vehicle>)
    requires Represents(fleet, trips) && Distinct(fleet)
    modifies fleet
    ensures var moved := Moved(setup, load.loads, trips);
      && Represents(flying, Arrived(moved, |moved|, false))
      && Represents(arrived, Arrived(moved, |moved|, true))
    ensures Distinct(flying) && forall v :: v in flying || v in arrived ==> v in fleet
  {
    flying, arrived := [], [];
    ghost var moved := Moved(setup, load.loads, trips);
    for i := 0 to |fleet|
      invariant moved == Moved(setup, load.loads, trips)
      invariant MovedBelow(fleet, trips, moved, i) && SplitBelow(fleet, moved, i, flying, arrived)
    {
      flying, arrived := AdvanceNext(setup, fleet, load, trips, moved, i, flying, arrived);
    }
    SplitIsOfFleet(fleet, moved, flying, arrived);
  }

  /** `occupied` names every edge that may carry load, and each of its ids fits the snapshot. */
  ghost predicate Covers(loads: Vec, occupied: seq<int>) {
    && (forall id: int :: LoadAt(loads, id) != 0.0 ==> id in occupied)
    && forall i :: 0 <= i < |occupied| ==> occupied[i] < |loads|
  }

  /** Clears only what was occupied a tick ago, which is as good as clearing every edge. */
  method ClearOccupied(load: LoadStore, lastOccupied: seq<int>)
    requires Covers(load.loads, lastOccupied)
    modifies load
    ensures load.loads == Zeros(|old(load.loads)|)
  {
    for i := 0 to |lastOccupied|
      invariant |load.loads| == |old(load.loads)|
      invariant forall id :: 0 <= id < |load.loads| && load.loads[id] != 0.0 ==> id in lastOccupied[i..]
    {
      var id := lastOccupied[i];
      assert lastOccupied[i..] == [id] + lastOccupied[i + 1..];
      load.Set(id, 0.0);
      assert forall e :: 0 <= e < |load.loads| ==> load.loads[e] == LoadAt(load.loads, e);
    }
  }

  /** Re-derives the load from who is on each edge; returns the edges to clear next time. */
  method LoadFromVehicles(load: LoadStore, inFlight: seq<Vehicle>, lastOccupied: seq<int>, ghost trips: seq<Trip>)
    returns (occupied: seq<int>)
    requires Represents(inFlight, trips) && Covers(load.loads, lastOccupied)
    modifies load
    ensures load.loads == Recomputed(old(load.loads), trips, |trips|)
    ensures Covers(load.loads, occupied)
  {
    ClearOccupied(load, lastOccupied);
    occupied := [];
    for i := 0 to |inFlight|
      invariant load.loads == Recomputed(old(load.loads), trips, i)
      invariant Covers(load.loads, occupied)
    {
      var vehicle := inFlight[i];
      assert trips[i] == TripOf(vehicle, trips[i].since);
      if vehicle.edgeIndex < |vehicle.edges| {
        var id := vehicle.edges[vehicle.edgeIndex];
        load.Set(id, load.Load(id) + vehicle.weight);
        occupied := occupied + [id];
      }
    }
  }

  const DEFAULT_TICK_SECONDS := 30.0
  const TRAVEL_ALLOWANCE_SECONDS := 300000.0

  function LatestDepart(reqs: seq<Departure>, n: nat): (t: real)
    requires n <= |reqs|
    ensures t >= 0.0
  {
    if n == 0 then 0.0
    else
      var before := LatestDepart(reqs, n - 1);
      if reqs[n - 1].departAt > before then reqs[n - 1].departAt else before
  }

  function Quotient(x: real, dt: real): real
    requires dt > 0.0
  {
    x / dt
  }

  function Ceiling(x: real): int {
    -((-x).Floor)
  }

  /** Enough ticks to reach the last departure, and then the travel allowance. */
  function DerivedMaxTicks(reqs: seq<Departure>, dt: real): int
    requires dt > 0.0
  {
    Quotient(LatestDepart(reqs, |reqs|), dt).Floor + 1 + Ceiling(Quotient(TRAVEL_ALLOWANCE_SECONDS, dt))
  }

  /** One observed tick; `sinceStart` is its instant counted from the start of the run. */
  datatype TickState = TickState(
    tick: nat, sinceStart: real, inFlight: nat, completed: nat, load: Vec, vc: Vec)

  datatype SimResult = SimResult(
    meanRealizedS: real, p95RealizedS: real, completed: nat, released: nat, ticks: nat, tickSeconds: real)

  const P95 := 0.95

  datatype SimError = NoRouterFactory | Unroutable(request: nat)

  /** The experienced times of the trips that arrived, in order of arrival. */
  function Realized(landed: seq<Trip>): (r: seq<real>)
    ensures |r| == |landed|
  {
    seq(|landed|, i requires 0 <= i < |landed| => landed[i].now.experienced)
  }

  ghost predicate Observed(setup: Setup, state: TickState, tick: nat, p: Progress) {
    state == TickState(tick, Clock(setup, tick), |p.flying|, |p.landed|, p.loads, EdgeRatios(setup.net, p.loads))
  }

  /** One of the requests due in this tick that no route exists for. */
  ghost predicate FailedIn(setup: Setup, tick: nat, p: Progress, request: nat)
    requires IsOrder(setup.reqs, setup.order) && tick > 0 && p.next <= |setup.order|
  {
    && request in setup.order[p.next..Due(setup, p.next, Clock(setup, tick - 1))]
    && request < |setup.reqs| && setup.route(p.loads, setup.reqs[request].request).None?
  }

  /** The objects of the run hold exactly the state p. */
  ghost predicate Holds(p: Progress, fleet: seq<Vehicle>, load: LoadStore, occupied: seq<int>)
    reads fleet, load
  {
    Represents(fleet, p.flying) && Distinct(fleet) && load.loads == p.loads && Covers(load.loads, occupied)
  }

  /** Advances the fleet, sets the arrivals apart, and re-derives the load. */
  method MoveAll(setup: Setup, fleet: seq<Vehicle>, load: LoadStore, lastOccupied: seq<int>, ghost trips: seq<Trip>)
    returns (flying: seq<Vehicle>, occupied: seq<int>, realized: seq<real>)
    requires Represents(fleet, trips) && Distinct(fleet) && Covers(load.loads, lastOccupied)
    modifies fleet, load
    ensures var moved := Moved(setup, old(load.loads), trips);
      && Represents(flying, Arrived(moved, |moved|, false)) && Distinct(flying)
      && load.loads == Recomputed(old(load.loads), Arrived(moved, |moved|, false), |Arrived(moved, |moved|, false)|)
      && Covers(load.loads, occupied)
      && realized == Realized(Arrived(moved, |moved|, true))
    ensures forall v :: v in flying ==> v in fleet
  {
    ghost var moved := Moved(setup, load.loads, trips);
    var arrived;
    flying, arrived := AdvanceAll(setup, fleet, load, trips);
    realized := ExperiencedTimes(arrived, Arrived(moved, |moved|, true));
    occupied := LoadFromVehicles(load, flying, lastOccupied, Arrived(moved, |moved|, false));
  }

  method ExperiencedTimes(arrived: seq<Vehicle>, ghost trips: seq<Trip>) returns (realized: seq<real>)
    requires Represents(arrived, trips)
    ensures realized == Realized(trips)
  {
    realized := [];
    for i := 0 to |arrived|
      invariant realized == Realized(trips)[..i]
    {
      assert trips[i] == TripOf(arrived[i], trips[i].since);
      realized := realized + [arrived[i].experienced];
    }
  }

  /** The clock after so many ticks. */
  method ClockAfter(setup: Setup, ticks: nat) returns (clockSeconds: real)
    ensures clockSeconds == Clock(setup, ticks)
  {
    ClockIsProduct(setup, ticks);
    clockSeconds := ticks as real * setup.dt;
  }

  method ReleaseDue(setup: Setup, nextPending: nat, clockSeconds: real) returns (next: nat)
    requires IsOrder(setup.reqs, setup.order) && nextPending <= |setup.order|
    ensures next == Due(setup, nextPending, clockSeconds)
  {
    next := nextPending;
    while next < |setup.order| && setup.reqs[setup.order[next]].departAt <= clockSeconds
      invariant nextPending <= next <= |setup.order|
      invariant Due(setup, next, clockSeconds) == Due(setup, nextPending, clockSeconds)
    {
      next := next + 1;
    }
  }

  lemma RepresentsAppend(a: seq<Vehicle>, s: seq<Trip>, b: seq<Vehicle>, t: seq<Trip>)
    requires Represents(a, s) && Represents(b, t)
    ensures Represents(a + b, s + t)
  {
  }

  lemma RealizedAppend(a: seq<Trip>, b: seq<Trip>)
    ensures Realized(a + b) == Realized(a) + Realized(b)
  {
  }

  method OneTick(setup: Setup, tick: nat, nextPending: nat, inFlight: seq<Vehicle>, load: LoadStore,
                 occupied: seq<int>, ghost p: Progress, ghost vehicles: set<Vehicle>)
    returns (r: Result<(nat, seq<Vehicle>, seq<int>, seq<real>), nat>)
    requires IsOrder(setup.reqs, setup.order) && tick > 0
    requires p.next == nextPending <= |setup.order| && Holds(p, inFlight, load, occupied)
    requires forall v :: v in inFlight ==> v in vehicles
    modifies vehicles, load
    ensures r.Err? ==> Tick(setup, tick, p).None? && FailedIn(setup, tick, p, r.error)
    ensures r.Ok? ==> Tick(setup, tick, p).Some?
    ensures r.Ok? ==>
      var q := Tick(setup, tick, p).value;
      && r.value.0 == q.next && Holds(q, r.value.1, load, r.value.2)
      && Realized(q.landed) == Realized(p.landed) + r.value.3
    ensures r.Ok? ==> forall v :: v in r.value.1 ==> v in vehicles || fresh(v)
  {
    var clockSeconds := ClockAfter(setup, tick - 1);
    var next := ReleaseDue(setup, nextPending, clockSeconds);
    var batch := RouteBatch(setup, nextPending, next, tick, load.Snapshot());
    if batch.Err? {
      return Err(batch.error);
    }
    ghost var released := Released(setup, nextPending, next, tick, p.loads).value;
    RepresentsAppend(inFlight, p.flying, batch.value, released);
    var flying, nowOccupied, realized := MoveAll(setup, inFlight + batch.value, load, occupied, p.flying + released);
    ghost var moved := Moved(setup, p.loads, p.flying + released);
    RealizedAppend(p.landed, Arrived(moved, |moved|, true));
    return Ok((next, flying, nowOccupied, realized));
  }

  /** Every tick of the run was observed, once and in order. */
  ghost predicate Streamed(setup: Setup, run: seq<Progress>, trace: seq<TickState>) {
    |run| == |trace| + 1 && forall k :: 0 < k < |run| ==> Observed(setup, trace[k - 1], k, run[k])
  }

  /** Each of the first n ticks left something to do. */
  ghost predicate StillBusy(setup: Setup, run: seq<Progress>, n: nat) {
    forall k :: 0 < k <= n && k < |run| ==> !Drained(setup, run[k])
  }

  ghost predicate RunSoFar(setup: Setup, run: seq<Progress>, trace: seq<TickState>) {
    IsRun(setup, run) && Streamed(setup, run, trace) && StillBusy(setup, run, |run|) && Last(run).next <= |setup.order|
  }

  ghost function Last(run: seq<Progress>): Progress
    requires |run| > 0
  {
    run[|run| - 1]
  }

  lemma RunSnoc(setup: Setup, run: seq<Progress>, q: Progress, trace: seq<TickState>, state: TickState)
    requires RunSoFar(setup, run, trace)
    requires Tick(setup, |run|, Last(run)) == Some(q) && Observed(setup, state, |run|, q)
    ensures IsRun(setup, run + [q]) && Streamed(setup, run + [q], trace + [state])
    ensures StillBusy(setup, run + [q], |run| - 1) && Last(run + [q]) == q
    ensures !Drained(setup, q) ==> RunSoFar(setup, run + [q], trace + [state])
  {
    forall k | 0 < k < |run + [q]|
      ensures Linked(setup, run + [q], k)
    {
      if k < |run| {
        assert Linked(setup, run, k);
      }
    }
  }

  /**
   What a run of at most `budget` ticks answers: it stopped at the first tick that left nothing
   to do, or by the budget, or at a request without a route.
   */
  ghost predicate Finished(setup: Setup, budget: nat, r: Result<SimResult, nat>, run: seq<Progress>, trace: seq<TickState>) {
    && IsRun(setup, run) && Streamed(setup, run, trace)
    && match r
       case Ok(result) => IsReport(setup, budget, result, run) && StillBusy(setup, run, |run| - 2)
       case Err(request) => StillBusy(setup, run, |run|) && FailedAfter(setup, run, request)
  }

  ghost predicate IsReport(setup: Setup, budget: nat, result: SimResult, run: seq<Progress>)
    requires |run| > 0
  {
    var p := Last(run);
    && 1 < |run| <= budget + 1 && (Drained(setup, p) || |run| == budget + 1)
    && result.meanRealizedS == MeanOf(Realized(p.landed)) && IsPercentile(Realized(p.landed), 0.95, result.p95RealizedS)
    && result.completed == |p.landed| && result.released == p.next
    && result.ticks == |run| - 1 && result.tickSeconds == setup.dt
  }

  ghost predicate FailedAfter(setup: Setup, run: seq<Progress>, request: nat)
    requires IsOrder(setup.reqs, setup.order) && |run| > 0
  {
    && Last(run).next <= |setup.order| && Tick(setup, |run|, Last(run)).None?
    && FailedIn(setup, |run|, Last(run), request)
  }

  method BuildTickState(setup: Setup, tick: nat, inFlight: nat, completed: nat, load: LoadStore)
    returns (state: TickState)
    ensures state == TickState(tick, Clock(setup, tick), inFlight, completed, load.loads, EdgeRatios(setup.net, load.loads))
  {
    var elapsed := ClockAfter(setup, tick);
    var snapshot := load.Snapshot();
    var ratios := EdgeVcRatios(setup.net, snapshot);
    return TickState(tick, elapsed, inFlight, completed, snapshot, ratios);
  }

  /** What a run is summed up by, from the experienced times of the trips that arrived. */
  method Report(realized: seq<real>, released: nat, ticks: nat, tickSeconds: real) returns (result: SimResult)
    ensures result.meanRealizedS == MeanOf(realized) && IsPercentile(realized, P95, result.p95RealizedS)
    ensures result.completed == |realized| && result.released == released
    ensures result.ticks == ticks && result.tickSeconds == tickSeconds
  {
    var mean := Mean(realized);
    var p95 := PercentileNearestRank(realized, P95);
    return SimResult(mean, p95, |realized|, released, ticks, tickSeconds);
  }

  /** One tick within a run: its observed state, and either the failure or what to go on with. */
  method ObservedTick(setup: Setup, nextPending: nat, inFlight: seq<Vehicle>, load: LoadStore,
                      occupied: seq<int>, realized: seq<real>, trace: seq<TickState>,
                      ghost run: seq<Progress>, ghost vehicles: set<Vehicle>)
    returns (r: Result<(nat, seq<Vehicle>, seq<int>, seq<real>), nat>, state: TickState, ghost q: Progress)
    requires RunSoFar(setup, run, trace)
    requires Last(run).next == nextPending && Holds(Last(run), inFlight, load, occupied)
    requires realized == Realized(Last(run).landed) && forall v :: v in inFlight ==> v in vehicles
    modifies vehicles, load
    ensures r.Err? ==> FailedAfter(setup, run, r.error)
    ensures r.Ok? ==>
      && q.next == r.value.0 <= |setup.order| && Holds(q, r.value.1, load, r.value.2) && r.value.3 == Realized(q.landed)
      && (forall v :: v in r.value.1 ==> v in vehicles || fresh(v))
      && IsRun(setup, run + [q]) && Streamed(setup, run + [q], trace + [state]) && StillBusy(setup, run + [q], |run| - 1)
      && (!Drained(setup, q) ==> RunSoFar(setup, run + [q], trace + [state]))
  {
    var tick := |trace| + 1;
    ghost var p := Last(run);
    q, state := p, TickState(tick, 0.0, 0, 0, [], []);
    r := OneTick(setup, tick, nextPending, inFlight, load, occupied, p, vehicles);
    if r.Err? {
      return;
    }
    q := Tick(setup, tick, p).value;
    r := Ok((r.value.0, r.value.1, r.value.2, realized + r.value.3));
    state := BuildTickState(setup, tick, |r.value.1|, |r.value.3|, load);
    RunSnoc(setup, run, q, trace, state);
  }

  method RunTicks(setup: Setup, budget: nat)
    returns (r: Result<SimResult, nat>, trace: seq<TickState>, ghost run: seq<Progress>)
    requires setup.Valid() && budget > 0
    ensures Finished(setup, budget, r, run, trace)
  {
    var nextPending, inFlight: seq<Vehicle>, realized: seq<real>, occupied: seq<int> := 0, [], [], [];
    var load := new LoadStore(setup.net.Size());
    ghost var vehicles: set<Vehicle> := {};
    trace, run := [], [Start(setup)];
    var tick := 1;
    while true
      invariant 1 <= tick == |run| <= budget && RunSoFar(setup, run, trace)
      invariant Holds(Last(run), inFlight, load, occupied) && fresh(load)
      invariant fresh(vehicles) && forall v :: v in inFlight ==> v in vehicles
      invariant nextPending == Last(run).next && realized == Realized(Last(run).landed)
      decreases budget - tick
    {
      var next, state;
      ghost var q;
      next, state, q := ObservedTick(setup, nextPending, inFlight, load, occupied, realized, trace, run, vehicles);
      if next.Err? {
        return Err(next.error), trace, run;
      }
      nextPending, inFlight, occupied, realized := next.value.0, next.value.1, next.value.2, next.value.3;
      vehicles := vehicles + set v | v in inFlight;
      trace, run := trace + [state], run + [q];
      if (|inFlight| == 0 && nextPending >= |setup.order|) || tick == budget {
        var result := Report(realized, nextPending, tick, setup.dt);
        return Ok(result), trace, run;
      }
      tick := tick + 1;
    }
  }

  /** The tick budget of a run. */
  function Budget(reqs: seq<Departure>, dt: real, maxTicks: int): (n: nat)
    requires dt > 0.0
    ensures n > 0
  {
    BudgetPositive(reqs, dt);
    if maxTicks <= 0 then DerivedMaxTicks(reqs, dt) else maxTicks
  }

  /**
   One whole run. The observed ticks are the states of a run in the sense of IsRun, and it
   ends for one of the reasons Finished lists.
   */
  method Simulate(net: Network, reqs: seq<Departure>, tickSeconds: real, maxTicks: int,
                  routerFactory: Option<(Vec, Request) -> Option<seq<int>>>)
    returns (r: Result<SimResult, SimError>, trace: seq<TickState>, order: seq<nat>, ghost run: seq<Progress>)
    ensures routerFactory.None? <==> r == Err(NoRouterFactory)
    ensures routerFactory.Some? ==>
      var dt := if tickSeconds <= 0.0 then 30.0 else tickSeconds;
      var setup := Setup(net, reqs, order, routerFactory.value, dt);
      Finished(setup, Budget(reqs, dt, maxTicks),
               if r.Ok? then Ok(r.value) else Err(r.error.request), run, trace)
  {
    if routerFactory.None? {
      return Err(NoRouterFactory), [], [], [];
    }
    var dt := if tickSeconds <= 0.0 then DEFAULT_TICK_SECONDS else tickSeconds;
    order := SortedRequestOrder(reqs);
    var setup := Setup(net, reqs, order, routerFactory.value, dt);
    var answer;
    answer, trace, run := RunTicks(setup, Budget(reqs, dt, maxTicks));
    match answer {
      case Ok(result) => r := Ok(result);
      case Err(request) => r := Err(Unroutable(request));
    }
  }

  lemma BudgetPositive(reqs: seq<Departure>, dt: real)
    requires dt > 0.0
    ensures DerivedMaxTicks(reqs, dt) >= 2
  {
    QuotientSign(LatestDepart(reqs, |reqs|), dt);
    QuotientSign(TRAVEL_ALLOWANCE_SECONDS, dt);
  }

  lemma QuotientSign(x: real, dt: real)
    requires dt > 0.0
    ensures x >= 0.0 ==> Quotient(x, dt) >= 0.0
    ensures x > 0.0 ==> Quotient(x, dt) > 0.0
    ensures Quotient(x, dt) * dt == x
  {
    Positive(1.0, dt);
    assert Quotient(x, dt) == x * (1.0 / dt);
  }
}
