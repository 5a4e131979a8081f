/** What holds after every tick of every simulation run. */
module SimulationRuns {
  import opened Results
  import opened Vectors
  import opened Assignment
  import opened Pricing
  import opened Vehicles
  import opened ReleaseOrder
  import opened Ticks
  import opened Simulator

  /** A run is a function of its inputs: two runs of the same setup agree tick by tick. */
  lemma {:induction false} RunUnique(setup: Setup, a: seq<Progress>, b: seq<Progress>, k: nat)
    requires IsRun(setup, a) && IsRun(setup, b) && k < |a| && k < |b|
    ensures a[k] == b[k]
  {
    if k > 0 {
      RunUnique(setup, a, b, k - 1);
      assert Linked(setup, a, k) && Linked(setup, b, k);
    }
  }

  lemma RunBounds(setup: Setup, run: seq<Progress>, k: nat)
    requires IsRun(setup, run) && k < |run|
    ensures run[k].next <= |setup.order|
  {
    if k > 0 {
      assert Linked(setup, run, k);
    }
  }

  // ---- every released request is one trip

  /** How many of the first n trips serve request r. */
  function Serving(trips: seq<Trip>, n: nat, r: nat): nat
    requires n <= |trips|
  {
    if n == 0 then 0 else Serving(trips, n - 1, r) + (if trips[n - 1].request == r then 1 else 0)
  }

  lemma {:induction false} ServingAgrees(a: seq<Trip>, b: seq<Trip>, n: nat, r: nat)
    requires n <= |a| && n <= |b| && forall i :: 0 <= i < n ==> a[i].request == b[i].request
    ensures Serving(a, n, r) == Serving(b, n, r)
  {
    if n > 0 {
      ServingAgrees(a, b, n - 1, r);
    }
  }

  lemma {:induction false} ServingAppend(a: seq<Trip>, b: seq<Trip>, n: nat, r: nat)
    requires n <= |b|
    ensures Serving(a + b, |a| + n, r) == Serving(a, |a|, r) + Serving(b, n, r)
  {
    if n == 0 {
      ServingAgrees(a + b, a, |a|, r);
    } else {
      ServingAppend(a, b, n - 1, r);
    }
  }

  lemma ServingSnoc(a: seq<Trip>, t: Trip, r: nat)
    ensures Serving(a + [t], |a| + 1, r) == Serving(a, |a|, r) + (if t.request == r then 1 else 0)
  {
    ServingAgrees(a + [t], a, |a|, r);
  }

  lemma {:induction false} ArrivedSplits(trips: seq<Trip>, n: nat, r: nat)
    requires n <= |trips|
    ensures var there, under := Arrived(trips, n, true), Arrived(trips, n, false);
      && Serving(there, |there|, r) + Serving(under, |under|, r) == Serving(trips, n, r)
      && |there| + |under| == n
  {
    if n > 0 {
      ArrivedSplits(trips, n - 1, r);
      ServingSnoc(Arrived(trips, n - 1, trips[n - 1].now.done), trips[n - 1], r);
    }
  }

  /** How often r occurs at order[lo..hi]. */
  function Occurs(order: seq<nat>, lo: nat, hi: nat, r: nat): nat
    requires lo <= hi <= |order|
  {
    if lo == hi then 0 else Occurs(order, lo, hi - 1, r) + (if order[hi - 1] == r then 1 else 0)
  }

  lemma {:induction false} OccursSplit(order: seq<nat>, mid: nat, hi: nat, r: nat)
    requires mid <= hi <= |order|
    ensures Occurs(order, 0, hi, r) == Occurs(order, 0, mid, r) + Occurs(order, mid, hi, r)
  {
    if mid < hi {
      OccursSplit(order, mid, hi - 1, r);
    }
  }

  lemma {:induction false} ReleasedServing(setup: Setup, lo: nat, hi: nat, tick: nat, loads: Vec, r: nat)
    requires setup.Valid() && lo <= hi <= |setup.order| && Released(setup, lo, hi, tick, loads).Some?
    ensures var batch := Released(setup, lo, hi, tick, loads).value;
      |batch| == hi - lo && Serving(batch, |batch|, r) == Occurs(setup.order, lo, hi, r)
  {
    if lo < hi {
      ReleasedServing(setup, lo, hi - 1, tick, loads, r);
      var batch := Released(setup, lo, hi, tick, loads).value;
      ServingSnoc(Released(setup, lo, hi - 1, tick, loads).value, batch[|batch| - 1], r);
    }
  }

  /** The release order lists no request twice. */
  lemma {:induction false} OccursOnce(setup: Setup, n: nat, r: nat)
    requires setup.Valid() && n <= |setup.order|
    ensures Occurs(setup.order, 0, n, r) == if r in setup.order[..n] then 1 else 0
  {
    if n > 0 {
      OccursOnce(setup, n - 1, r);
      var order := setup.order;
      assert order[..n] == order[..n - 1] + [order[n - 1]];
      assert forall i :: 0 <= i < n - 1 ==> order[..n - 1][i] == order[i] && Before(setup.reqs, order[i], order[n - 1]);
    }
  }

  /**
   Nothing is lost or duplicated: after every tick each released request is exactly one trip,
   under way or completed, and no other request is any.
   */
  lemma EveryRequestOnce(setup: Setup, run: seq<Progress>, k: nat, r: nat)
    requires IsRun(setup, run) && k < |run|
    ensures run[k].next <= |setup.order| && |run[k].flying| + |run[k].landed| == run[k].next
    ensures Serving(run[k].flying, |run[k].flying|, r) + Serving(run[k].landed, |run[k].landed|, r)
            == (if r in setup.order[..run[k].next] then 1 else 0)
  {
    RequestsKept(setup, run, k, r);
    OccursOnce(setup, run[k].next, r);
  }

  /** What EveryRequestOnce says of one state. */
  ghost predicate Kept(setup: Setup, p: Progress, r: nat)
    requires p.next <= |setup.order|
  {
    && Serving(p.flying, |p.flying|, r) + Serving(p.landed, |p.landed|, r) == Occurs(setup.order, 0, p.next, r)
    && |p.flying| + |p.landed| == p.next
  }

  lemma {:induction false} RequestsKept(setup: Setup, run: seq<Progress>, k: nat, r: nat)
    requires IsRun(setup, run) && k < |run|
    ensures run[k].next <= |setup.order| && Kept(setup, run[k], r)
  {
    if k > 0 {
      RequestsKept(setup, run, k - 1, r);
      assert Linked(setup, run, k);
      TickKeepsRequests(setup, k, run[k - 1], run[k], r);
    }
  }

  lemma TickKeepsRequests(setup: Setup, tick: nat, p: Progress, q: Progress, r: nat)
    requires setup.Valid() && tick > 0 && p.next <= |setup.order| && Tick(setup, tick, p) == Some(q)
    requires Kept(setup, p, r)
    ensures q.next <= |setup.order| && Kept(setup, q, r)
  {
    var next := Due(setup, p.next, Clock(setup, tick - 1));
    var batch := Released(setup, p.next, next, tick, p.loads).value;
    ReleasedServing(setup, p.next, next, tick, p.loads, r);
    OccursSplit(setup.order, p.next, next, r);
    MovedServing(setup, p, batch, r);
  }

  /** Moving the trips and setting the arrivals apart neither adds nor loses one. */
  lemma MovedServing(setup: Setup, p: Progress, batch: seq<Trip>, r: nat)
    ensures var moved := Moved(setup, p.loads, p.flying + batch);
      var under, landed := Arrived(moved, |moved|, false), p.landed + Arrived(moved, |moved|, true);
      && Serving(under, |under|, r) + Serving(landed, |landed|, r)
         == Serving(p.flying, |p.flying|, r) + Serving(batch, |batch|, r) + Serving(p.landed, |p.landed|, r)
      && |under| + |landed| == |p.flying| + |batch| + |p.landed|
  {
    var moved := Moved(setup, p.loads, p.flying + batch);
    var there := Arrived(moved, |moved|, true);
    ServingAppend(p.flying, batch, |batch|, r);
    ServingAgrees(moved, p.flying + batch, |moved|, r);
    ArrivedSplits(moved, |moved|, r);
    ServingAppend(p.landed, there, |there|, r);
  }

  lemma OrderLength(setup: Setup)
    requires setup.Valid()
    ensures |setup.order| == |setup.reqs|
  {
    var order, n := setup.order, |setup.reqs|;
    assert forall i, j :: 0 <= i < j < |order| ==> Before(setup.reqs, order[i], order[j]);
    Elements(order, |order|);
    var all := seq(n, i => i);
    Elements(all, n);
    var listed, wanted := set i | 0 <= i < |order| :: order[i], set i | 0 <= i < n :: all[i];
    assert forall r :: r in listed ==> r in order && all[r] == r;
    forall r | r in wanted
      ensures r in listed
    {
      assert r in order;
    }
    assert listed == wanted;
  }

  lemma {:induction false} Elements(s: seq<nat>, n: nat)
    requires n <= |s| && forall i, j :: 0 <= i < j < |s| ==> s[i] != s[j]
    ensures |set i | 0 <= i < n :: s[i]| == n
  {
    if n > 0 {
      Elements(s, n - 1);
      assert (set i | 0 <= i < n :: s[i]) == (set i | 0 <= i < n - 1 :: s[i]) + {s[n - 1]};
    }
  }

  // ---- released exactly when due

  lemma {:induction false} ClockGrows(setup: Setup, a: nat, b: nat)
    requires setup.dt > 0.0 && a <= b
    ensures Clock(setup, a) <= Clock(setup, b)
    ensures a < b ==> Clock(setup, a) < Clock(setup, b)
  {
    if a < b {
      ClockGrows(setup, a, b - 1);
    }
  }

  /** After a tick, the released requests are exactly those due by the clock it started at. */
  lemma {:induction false} ReleasedWhenDue(setup: Setup, run: seq<Progress>, k: nat, i: nat)
    requires IsRun(setup, run) && 0 < k < |run| && i < |setup.order|
    ensures i < run[k].next <==> setup.reqs[setup.order[i]].departAt <= Clock(setup, k - 1)
  {
    RunBounds(setup, run, k - 1);
    if k > 1 {
      ReleasedWhenDue(setup, run, k - 1, i);
      ClockGrows(setup, k - 2, k - 1);
    }
    DueSplits(setup, run[k - 1].next, Clock(setup, k - 1), i);
    assert Linked(setup, run, k);
  }

  lemma DueSplits(setup: Setup, from: nat, clock: real, i: nat)
    requires setup.Valid() && from <= |setup.order| && i < |setup.order|
    requires i < from ==> setup.reqs[setup.order[i]].departAt <= clock
    ensures i < Due(setup, from, clock) <==> setup.reqs[setup.order[i]].departAt <= clock
  {
    var next := Due(setup, from, clock);
    DueStops(setup, from, clock);
    if next < i {
      assert Before(setup.reqs, setup.order[next], setup.order[i]);
    }
  }

  // ---- what a trip has experienced

  /** The trip was released in the first tick its request was due and follows the route answered then. */
  ghost predicate WellReleased(setup: Setup, run: seq<Progress>, t: Trip)
    requires setup.Valid()
  {
    && t.request < |setup.reqs| && 0 < t.since <= |run|
    && var d := setup.reqs[t.request];
       && d.departAt <= Clock(setup, t.since - 1) && (t.since > 1 ==> d.departAt > Clock(setup, t.since - 2))
       && t.weight == RequestWeight(d.request)
       && setup.route(run[t.since - 1].loads, d.request) == Some(t.edges)
  }

  /** Under way at the end of tick k: it has experienced every tick since its release in full. */
  ghost predicate UnderWay(setup: Setup, run: seq<Progress>, k: nat, t: Trip)
    requires setup.Valid()
  {
    && WellReleased(setup, run, t) && t.since <= k
    && !t.now.done && Placed(setup.net, t.edges, t.now)
    && t.now.experienced == Clock(setup, k - t.since + 1)
  }

  /** Completed in tick k: it has experienced the earlier ticks in full and part of this one. */
  ghost predicate CompletedIn(setup: Setup, run: seq<Progress>, k: nat, t: Trip)
    requires setup.Valid()
  {
    && WellReleased(setup, run, t) && t.since <= k && t.now.done
    && Clock(setup, k - t.since) <= t.now.experienced <= Clock(setup, k - t.since + 1)
  }

  lemma {:induction false} ReleasedTrip(setup: Setup, lo: nat, hi: nat, tick: nat, loads: Vec, i: nat)
    requires setup.Valid() && lo <= hi <= |setup.order| && Released(setup, lo, hi, tick, loads).Some?
    requires i < hi - lo
    ensures var batch := Released(setup, lo, hi, tick, loads).value;
      && |batch| == hi - lo
      && var req := setup.reqs[setup.order[lo + i]].request;
         setup.route(loads, req).Some?
         && batch[i] == Trip(setup.order[lo + i], RequestWeight(req), setup.route(loads, req).value, tick, AT_ORIGIN)
  {
    ReleasedServing(setup, lo, hi, tick, loads, 0);
    ReleasedServing(setup, lo, hi - 1, tick, loads, 0);
    if i < hi - lo - 1 {
      ReleasedTrip(setup, lo, hi - 1, tick, loads, i);
    }
  }

  /** A trip set out in tick k, before it has moved. */
  lemma FreshTrip(setup: Setup, run: seq<Progress>, k: nat, i: nat, t: Trip)
    requires IsRun(setup, run) && 0 < k < |run|
    requires run[k - 1].next <= run[k - 1].next + i < run[k].next <= |setup.order|
    requires var req := setup.reqs[setup.order[run[k - 1].next + i]].request;
      && setup.route(run[k - 1].loads, req).Some?
      && t == Trip(setup.order[run[k - 1].next + i], RequestWeight(req), setup.route(run[k - 1].loads, req).value,
                   k, AT_ORIGIN)
    ensures WellReleased(setup, run, t)
  {
    ReleasedWhenDue(setup, run, k, run[k - 1].next + i);
    if k > 1 {
      ReleasedWhenDue(setup, run, k - 1, run[k - 1].next + i);
    }
  }

  /** Moved by tick k under these loads, the trip is under way or completed. */
  ghost predicate MovedOk(setup: Setup, run: seq<Progress>, k: nat, loads: Vec, t: Trip)
    requires setup.Valid()
  {
    var r := t.(now := Advanced(setup.net, loads, t.edges, t.now, setup.dt));
    if r.now.done then CompletedIn(setup, run, k, r) else UnderWay(setup, run, k, r)
  }

  /** One tick takes a trip that is under way, or just set out, to under way or completed. */
  lemma MovedTrip(setup: Setup, run: seq<Progress>, k: nat, loads: Vec, t: Trip)
    requires setup.Valid() && k > 0 && WellReleased(setup, run, t) && t.since <= k
    requires !t.now.done && Placed(setup.net, t.edges, t.now)
    requires t.now.experienced == Clock(setup, k - t.since)
    ensures MovedOk(setup, run, k, loads, t)
  {
    DriveAccounts(setup.net, loads, t.edges, t.now, setup.dt);
  }

  lemma {:induction false} ArrivedFrom(trips: seq<Trip>, n: nat, done: bool, i: nat) returns (k: nat)
    requires n <= |trips| && i < |Arrived(trips, n, done)|
    ensures k < n && trips[k] == Arrived(trips, n, done)[i] && trips[k].now.done == done
  {
    if trips[n - 1].now.done == done && i == |Arrived(trips, n, done)| - 1 {
      k := n - 1;
    } else {
      k := ArrivedFrom(trips, n - 1, done, i);
    }
  }

  /** The trips a tick released, and all trips it moved. */
  lemma TickParts(setup: Setup, tick: nat, p: Progress, q: Progress) returns (batch: seq<Trip>, moved: seq<Trip>)
    requires setup.Valid() && tick > 0 && p.next <= |setup.order| && Tick(setup, tick, p) == Some(q)
    ensures
      && p.next <= q.next <= |setup.order|
      && Released(setup, p.next, q.next, tick, p.loads) == Some(batch) && |batch| == q.next - p.next
      && moved == Moved(setup, p.loads, p.flying + batch)
      && q.flying == Arrived(moved, |moved|, false) && q.landed == p.landed + Arrived(moved, |moved|, true)
      && q.loads == Recomputed(p.loads, q.flying, |q.flying|)
  {
    batch := Released(setup, p.next, Due(setup, p.next, Clock(setup, tick - 1)), tick, p.loads).value;
    moved := Moved(setup, p.loads, p.flying + batch);
    ReleasedServing(setup, p.next, q.next, tick, p.loads, 0);
  }

  /** Every trip under way after tick k has experienced exactly the ticks since its release. */
  lemma {:induction false} TripsUnderWay(setup: Setup, run: seq<Progress>, k: nat, i: nat)
    requires IsRun(setup, run) && k < |run| && i < |run[k].flying|
    ensures UnderWay(setup, run, k, run[k].flying[i])
    decreases k, 1
  {
    if k > 0 {
      assert Linked(setup, run, k);
      var batch, moved := TickParts(setup, k, run[k - 1], run[k]);
      var from := ArrivedFrom(moved, |moved|, false, i);
      MovedInTick(setup, run, k, batch, from);
    }
  }

  lemma {:induction false} MovedInTick(setup: Setup, run: seq<Progress>, k: nat, batch: seq<Trip>, i: nat)
    requires IsRun(setup, run) && 0 < k < |run| && i < |run[k - 1].flying| + |batch|
    requires run[k - 1].next <= run[k].next <= |setup.order| && |batch| == run[k].next - run[k - 1].next
    requires Released(setup, run[k - 1].next, run[k].next, k, run[k - 1].loads) == Some(batch)
    ensures MovedOk(setup, run, k, run[k - 1].loads, (run[k - 1].flying + batch)[i])
    decreases k, 0
  {
    var p := run[k - 1];
    if i < |p.flying| {
      TripsUnderWay(setup, run, k - 1, i);
      MovedTrip(setup, run, k, p.loads, p.flying[i]);
    } else {
      ReleasedTrip(setup, p.next, run[k].next, k, p.loads, i - |p.flying|);
      FreshTrip(setup, run, k, i - |p.flying|, batch[i - |p.flying|]);
      MovedTrip(setup, run, k, p.loads, batch[i - |p.flying|]);
    }
  }

  /** A trip that completes in tick k has experienced its earlier ticks in full and part of that one. */
  lemma TripsCompleted(setup: Setup, run: seq<Progress>, k: nat, i: nat)
    requires IsRun(setup, run) && 0 < k < |run| && |run[k - 1].landed| <= i < |run[k].landed|
    ensures CompletedIn(setup, run, k, run[k].landed[i])
  {
    assert Linked(setup, run, k);
    var batch, moved := TickParts(setup, k, run[k - 1], run[k]);
    var from := ArrivedFrom(moved, |moved|, true, i - |run[k - 1].landed|);
    MovedInTick(setup, run, k, batch, from);
  }

  // ---- the load

  /** The summed weight of the first n trips that stand on an edge. */
  function OnEdge(trips: seq<Trip>, id: int, n: nat): real
    requires n <= |trips|
  {
    if n == 0 then 0.0
    else
      var t := trips[n - 1];
      OnEdge(trips, id, n - 1)
      + (if t.now.edgeIndex < |t.edges| && t.edges[t.now.edgeIndex] == id then t.weight else 0.0)
  }

  lemma {:induction false} RecomputedIsOccupancy(loads: Vec, trips: seq<Trip>, n: nat, id: nat)
    requires n <= |trips|
    ensures LoadAt(Recomputed(loads, trips, n), id) == OnEdge(trips, id, n)
  {
    if n > 0 {
      RecomputedIsOccupancy(loads, trips, n - 1, id);
    }
  }

  /** After every tick the load of each edge is the summed weight of the vehicles standing on it. */
  lemma LoadIsOccupancy(setup: Setup, run: seq<Progress>, k: nat, id: nat)
    requires IsRun(setup, run) && k < |run|
    ensures LoadAt(run[k].loads, id) == OnEdge(run[k].flying, id, |run[k].flying|)
  {
    if k > 0 {
      assert Linked(setup, run, k);
      var batch, moved := TickParts(setup, k, run[k - 1], run[k]);
      RecomputedIsOccupancy(run[k - 1].loads, run[k].flying, |run[k].flying|, id);
    }
  }

  // ---- how runs end

  /** A run that stops early has completed every request. */
  lemma DrainedIsComplete(setup: Setup, run: seq<Progress>, k: nat)
    requires IsRun(setup, run) && k < |run| && Drained(setup, run[k])
    ensures |run[k].landed| == run[k].next == |setup.reqs|
  {
    EveryRequestOnce(setup, run, k, 0);
    OrderLength(setup);
  }

  /** The counts a finished run reports, whichever way it ended. */
  lemma ReportIsHonest(setup: Setup, budget: nat, result: SimResult, run: seq<Progress>, trace: seq<TickState>)
    requires Finished(setup, budget, Ok(result), run, trace)
    ensures result.completed <= result.released <= |setup.reqs|
    ensures result.ticks < budget ==> result.completed == |setup.reqs|
    ensures result.completed < result.released ==> result.ticks == budget
  {
    EveryRequestOnce(setup, run, |run| - 1, 0);
    OrderLength(setup);
    if Drained(setup, Last(run)) {
      DrainedIsComplete(setup, run, |run| - 1);
    }
  }

  /** A run without requests takes one tick, not none. */
  lemma EmptyRun(setup: Setup, budget: nat, result: SimResult, run: seq<Progress>, trace: seq<TickState>)
    requires setup.reqs == [] && Finished(setup, budget, Ok(result), run, trace)
    ensures result.ticks == |trace| == 1 && result.completed == result.released == 0
    ensures result.meanRealizedS == result.p95RealizedS == 0.0
  {
    OrderLength(setup);
    EveryRequestOnce(setup, run, 1, 0);
    assert Drained(setup, run[1]);
    ReportIsHonest(setup, budget, result, run, trace);
  }

  /** A positive tick budget is kept, and a run that leaves trips unfinished has used all of it. */
  lemma KeepsBudget(setup: Setup, maxTicks: int, r: Result<SimResult, nat>, run: seq<Progress>, trace: seq<TickState>)
    requires setup.Valid() && maxTicks > 0 && Finished(setup, Budget(setup.reqs, setup.dt, maxTicks), r, run, trace)
    ensures r.Ok? ==> |trace| == r.value.ticks <= maxTicks
    ensures r.Ok? && r.value.completed < |setup.reqs| ==> r.value.ticks == maxTicks
  {
    if r.Ok? {
      ReportIsHonest(setup, maxTicks, r.value, run, trace);
    }
  }

  // ---- the default budget

  lemma {:induction false} LatestBounds(reqs: seq<Departure>, n: nat, i: nat)
    requires i < n <= |reqs|
    ensures reqs[i].departAt <= LatestDepart(reqs, n)
  {
    if i < n - 1 {
      LatestBounds(reqs, n - 1, i);
    }
  }

  lemma CeilingUp(x: real)
    ensures x <= Ceiling(x) as real
  {
  }

  lemma ScaleUp(x: real, n: int, dt: real)
    requires dt > 0.0 && Quotient(x, dt) <= n as real
    ensures x <= n as real * dt
  {
    QuotientSign(x, dt);
    MulPositive(1.0, dt);
    var slack := n as real - Quotient(x, dt);
    if slack > 0.0 {
      MulPositive(slack, dt);
    }
    assert slack * dt == n as real * dt - Quotient(x, dt) * dt;
  }

  /** The latest departure, none counting as 0. */
  ghost predicate IsLatest(reqs: seq<Departure>, latest: real) {
    && latest >= 0.0 && (forall i :: 0 <= i < |reqs| ==> reqs[i].departAt <= latest)
    && (latest == 0.0 || exists i :: 0 <= i < |reqs| && reqs[i].departAt == latest)
  }

  lemma {:induction false} LatestIs(reqs: seq<Departure>, n: nat)
    requires n <= |reqs|
    ensures LatestDepart(reqs, n) == 0.0 || exists i :: 0 <= i < n && reqs[i].departAt == LatestDepart(reqs, n)
  {
    if n > 0 {
      LatestIs(reqs, n - 1);
    }
  }

  lemma OnlyLatest(reqs: seq<Departure>, latest: real)
    requires IsLatest(reqs, latest)
    ensures LatestDepart(reqs, |reqs|) == latest
  {
    LatestIs(reqs, |reqs|);
    if i :| 0 <= i < |reqs| && reqs[i].departAt == latest {
      LatestBounds(reqs, |reqs|, i);
    }
  }

  /** x lies in the n-th of the ticks from 0 on. */
  ghost predicate InTick(x: real, dt: real, n: int) {
    n as real * dt <= x < (n + 1) as real * dt
  }

  lemma FloorIs(x: real, dt: real, n: int)
    requires dt > 0.0 && InTick(x, dt, n)
    ensures Quotient(x, dt).Floor == n
  {
    ScaledBelow(n as real, Quotient(x, dt), dt, x);
    ScaledBelow(Quotient(x, dt), (n + 1) as real, dt, (n + 1) as real * dt);
  }

  lemma ScaledBelow(a: real, b: real, dt: real, bdt: real)
    requires dt > 0.0 && bdt == b * dt
    ensures a * dt <= bdt <==> a <= b
    ensures a * dt < bdt <==> a < b
  {
  }

  /**
   The default budget: the tick the latest departure falls in, one more, and as many as it takes to
   cover 300000 seconds.
   */
  lemma DefaultBudgetIs(reqs: seq<Departure>, dt: real, maxTicks: int, latest: real, a: int, b: int)
    requires dt > 0.0 && maxTicks <= 0 && IsLatest(reqs, latest)
    requires InTick(latest, dt, a) && InTick(-300000.0, dt, -b)
    ensures Budget(reqs, dt, maxTicks) == a + 1 + b
  {
    OnlyLatest(reqs, latest);
    FloorIs(latest, dt, a);
    FloorIs(-300000.0, dt, -b);
    QuotientOfNegative(300000.0, dt);
  }

  lemma QuotientOfNegative(x: real, dt: real)
    requires dt > 0.0
    ensures Quotient(-x, dt) == -Quotient(x, dt)
  {
    assert Quotient(-x, dt) * dt == -Quotient(x, dt) * dt;
  }

  /** The tick in whose clock the last departure falls. */
  function LastDepartureTick(setup: Setup): (n: int)
    requires setup.dt > 0.0
    ensures n >= 1
  {
    QuotientSign(LatestDepart(setup.reqs, |setup.reqs|), setup.dt);
    Quotient(LatestDepart(setup.reqs, |setup.reqs|), setup.dt).Floor + 1
  }

  function AllowanceTicks(setup: Setup): (n: int)
    requires setup.dt > 0.0
    ensures n >= 1
  {
    QuotientSign(TRAVEL_ALLOWANCE_SECONDS, setup.dt);
    Ceiling(Quotient(TRAVEL_ALLOWANCE_SECONDS, setup.dt))
  }

  lemma AllDueBy(setup: Setup, r: nat)
    requires setup.dt > 0.0 && r < |setup.reqs|
    ensures setup.reqs[r].departAt <= Clock(setup, LastDepartureTick(setup))
  {
    LatestBounds(setup.reqs, |setup.reqs|, r);
    ScaleUp(LatestDepart(setup.reqs, |setup.reqs|), LastDepartureTick(setup), setup.dt);
    ClockIsProduct(setup, LastDepartureTick(setup));
  }

  lemma AllowanceCovers(setup: Setup)
    requires setup.dt > 0.0
    ensures Clock(setup, AllowanceTicks(setup)) >= TRAVEL_ALLOWANCE_SECONDS
  {
    CeilingUp(Quotient(TRAVEL_ALLOWANCE_SECONDS, setup.dt));
    ScaleUp(TRAVEL_ALLOWANCE_SECONDS, AllowanceTicks(setup), setup.dt);
    ClockIsProduct(setup, AllowanceTicks(setup));
  }

  /**
   Under the derived tick budget a run releases every request, and only trips that have been
   travelling for the whole allowance of 300000 seconds are cut off.
   */
  lemma DerivedBudgetSuffices(setup: Setup, result: SimResult, run: seq<Progress>, trace: seq<TickState>)
    requires setup.Valid() && Finished(setup, Budget(setup.reqs, setup.dt, 0), Ok(result), run, trace)
    ensures result.released == |setup.reqs|
    ensures forall i :: 0 <= i < |Last(run).flying| ==>
      Last(run).flying[i].now.experienced >= 300000.0
  {
    var k := |run| - 1;
    OrderLength(setup);
    RunBounds(setup, run, k);
    if !Drained(setup, Last(run)) {
      assert k == LastDepartureTick(setup) + AllowanceTicks(setup);
      if Last(run).next < |setup.order| {
        AllDueBy(setup, setup.order[Last(run).next]);
        ClockGrows(setup, LastDepartureTick(setup), k - 1);
        ReleasedWhenDue(setup, run, k, Last(run).next);
      }
      forall i | 0 <= i < |Last(run).flying|
        ensures Last(run).flying[i].now.experienced >= TRAVEL_ALLOWANCE_SECONDS
      {
        TripsUnderWay(setup, run, k, i);
        LongTravelled(setup, run, k, Last(run).flying[i]);
      }
    }
  }

  lemma LongTravelled(setup: Setup, run: seq<Progress>, k: nat, t: Trip)
    requires setup.Valid() && UnderWay(setup, run, k, t) && k == LastDepartureTick(setup) + AllowanceTicks(setup)
    ensures t.now.experienced >= TRAVEL_ALLOWANCE_SECONDS
  {
    AllDueBy(setup, t.request);
    if t.since - 2 >= LastDepartureTick(setup) {
      ClockGrows(setup, LastDepartureTick(setup), t.since - 2);
    }
    AllowanceCovers(setup);
    ClockGrows(setup, AllowanceTicks(setup), k - t.since + 1);
  }
}
