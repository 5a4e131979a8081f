/** What one tick of a run does to a trip, told by the prices of the vehicles that stood on the roads before it. */
module TripProgress {
  import opened Results
  import opened Vectors
  import opened Assignment
  import opened Pricing
  import opened Vehicles
  import opened Ticks
  import opened Simulator
  import opened SimulationRuns

  /** The part of a price that falls on dist meters of an edge. */
  function Share(price: real, dist: real, length: real): real
    requires length > 0.0
  {
    price * dist / length
  }

  /** The price of what is left of a path: its edges, less those behind and the part of the current one driven. */
  function RoadLeft(net: Network, prices: Vec, edges: seq<int>, m: Motion): real
    requires Roads(net, edges) && |prices| == net.Size() && m.edgeIndex <= |edges|
  {
    PriceOf(edges, prices) - PriceBelow(edges, prices, m.edgeIndex)
    - (if m.edgeIndex == |edges| then 0.0
       else Share(prices[edges[m.edgeIndex]], m.dist, net.g.edges[edges[m.edgeIndex]].lengthM))
  }

  lemma AheadByShare(length: real, seconds: real, dist: real)
    requires length > 0.0 && seconds > 0.0
    ensures Ahead(length, seconds, dist) == seconds - Share(seconds, dist, length)
  {
    Positive(length, seconds);
    var share := Share(seconds, dist, length);
    assert share * length == seconds * dist;
    assert (length / seconds) * seconds == length;
    ShareAtSpeed(length / seconds, length, seconds, dist, share);
    Unscale(length - dist, seconds - share, length / seconds);
  }

  lemma ShareAtSpeed(speed: real, length: real, seconds: real, dist: real, share: real)
    requires speed * seconds == length && share * length == seconds * dist && seconds > 0.0
    ensures (seconds - share) * speed == length - dist
  {
    assert (share * speed) * seconds == share * length;
    Cancel(share * speed, dist, seconds);
  }

  lemma TimeAheadIsRoadLeft(net: Network, loads: Vec, edges: seq<int>, m: Motion)
    requires net.Valid() && Roads(net, edges) && m.edgeIndex <= |edges|
    ensures TimeAhead(net, loads, edges, m) == RoadLeft(net, Prices(net, Realized, loads), edges, m)
  {
    RoadsTake(net, loads, edges, |edges|);
    RoadsTake(net, loads, edges, m.edgeIndex);
    if m.edgeIndex < |edges| {
      RoadSeconds(net, loads, edges, m.edgeIndex);
      var id := edges[m.edgeIndex];
      AheadByShare(LengthOf(net, id), Seconds(net, loads, id), m.dist);
    }
  }

  /** Each edge priced at the summed weight of the trips that stand on it. */
  ghost predicate OccupancyPrices(net: Network, trips: seq<Trip>, prices: Vec) {
    && |prices| == net.Size()
    && forall id :: 0 <= id < |prices| ==> prices[id] == net.bpr.Cost(net.g.edges[id], OnEdge(trips, id, |trips|))
  }

  lemma OccupancyPricesAre(setup: Setup, run: seq<Progress>, k: nat, prices: Vec)
    requires IsRun(setup, run) && k < |run| && OccupancyPrices(setup.net, run[k].flying, prices)
    ensures prices == Prices(setup.net, Realized, run[k].loads)
  {
    forall id | 0 <= id < |prices|
      ensures prices[id] == Prices(setup.net, Realized, run[k].loads)[id]
    {
      LoadIsOccupancy(setup, run, k, id);
    }
  }

  /** Where the trip was when tick k started: at its origin if released in that tick. */
  ghost predicate WasAt(run: seq<Progress>, k: nat, t: Trip, before: Motion)
    requires 0 < k <= |run|
  {
    if t.since == k then before == AT_ORIGIN else t.(now := before) in run[k - 1].flying
  }

  /** The trip a tick moved, found from where it ended up. */
  lemma MovedFrom(setup: Setup, run: seq<Progress>, k: nat, batch: seq<Trip>, i: nat) returns (before: Motion)
    requires IsRun(setup, run) && 0 < k < |run| && i < |run[k - 1].flying| + |batch|
    requires run[k - 1].next <= run[k].next <= |setup.order| && |batch| == run[k].next - run[k - 1].next
    requires Released(setup, run[k - 1].next, run[k].next, k, run[k - 1].loads) == Some(batch)
    ensures var t := (run[k - 1].flying + batch)[i];
      && before == t.now && !before.done && before.edgeIndex <= |t.edges| && before.dist >= 0.0
      && Placed(setup.net, t.edges, before) && WasAt(run, k, t, before)
  {
    var p := run[k - 1];
    before := (p.flying + batch)[i].now;
    if i < |p.flying| {
      TripsUnderWay(setup, run, k - 1, i);
      assert p.flying[i].(now := before) == p.flying[i];
    } else {
      ReleasedTrip(setup, p.next, run[k].next, k, p.loads, i - |p.flying|);
    }
  }

  /** What a tick of t seconds does to a trip over roads priced like this. */
  ghost predicate Spends(net: Network, prices: Vec, edges: seq<int>, before: Motion, now: Motion, t: real)
    requires Roads(net, edges) && |prices| == net.Size() && before.edgeIndex <= |edges| && now.edgeIndex <= |edges|
  {
    if now.done then
      RoadLeft(net, prices, edges, before) <= t
      && now.experienced == before.experienced + RoadLeft(net, prices, edges, before)
    else
      RoadLeft(net, prices, edges, now) == RoadLeft(net, prices, edges, before) - t
      && now.experienced == before.experienced + t
  }

  lemma DriveSpends(net: Network, loads: Vec, edges: seq<int>, before: Motion, t: real)
    requires net.Valid() && Roads(net, edges) && t >= 0.0 && !before.done && Placed(net, edges, before)
    ensures var now := Advanced(net, loads, edges, before, t);
      now.edgeIndex <= |edges| && Spends(net, Prices(net, Realized, loads), edges, before, now, t)
  {
    var now := Drive(net, loads, edges, before, t);
    DriveAccounts(net, loads, edges, before, t);
    DriveTradesTime(net, loads, edges, before, t);
    TimeAheadIsRoadLeft(net, loads, edges, before);
    TimeAheadIsRoadLeft(net, loads, edges, now);
  }

  /** A trip before and after tick k, which started with the vehicles standing as these prices say. */
  ghost predicate TickSpends(setup: Setup, run: seq<Progress>, k: nat, prices: Vec, t: Trip, before: Motion)
    requires 0 < k <= |run| && Roads(setup.net, t.edges) && |prices| == setup.net.Size()
  {
    && WasAt(run, k, t, before) && before.edgeIndex <= |t.edges| && t.now.edgeIndex <= |t.edges|
    && Spends(setup.net, prices, t.edges, before, t.now, setup.dt)
  }

  lemma MovedSpends(setup: Setup, run: seq<Progress>, k: nat, batch: seq<Trip>, i: nat, prices: Vec)
    returns (before: Motion)
    requires IsRun(setup, run) && 0 < k < |run| && i < |run[k - 1].flying| + |batch|
    requires run[k - 1].next <= run[k].next <= |setup.order| && |batch| == run[k].next - run[k - 1].next
    requires Released(setup, run[k - 1].next, run[k].next, k, run[k - 1].loads) == Some(batch)
    requires setup.net.Valid() && Roads(setup.net, Moved(setup, run[k - 1].loads, run[k - 1].flying + batch)[i].edges)
    requires OccupancyPrices(setup.net, run[k - 1].flying, prices)
    ensures TickSpends(setup, run, k, prices, Moved(setup, run[k - 1].loads, run[k - 1].flying + batch)[i], before)
  {
    before := MovedFrom(setup, run, k, batch, i);
    DriveSpends(setup.net, run[k - 1].loads, (run[k - 1].flying + batch)[i].edges, before, setup.dt);
    OccupancyPricesAre(setup, run, k - 1, prices);
  }

  /**
   A trip under way after tick k has, in that tick, left exactly dt seconds of its road behind, at the
   prices of the vehicles that stood on the roads when the tick started.
   */
  lemma UnderWayAtOccupancyPrices(setup: Setup, run: seq<Progress>, k: nat, i: nat, prices: Vec)
    returns (before: Motion)
    requires IsRun(setup, run) && 0 < k < |run| && i < |run[k].flying|
    requires setup.net.Valid() && Roads(setup.net, run[k].flying[i].edges)
    requires OccupancyPrices(setup.net, run[k - 1].flying, prices)
    ensures !run[k].flying[i].now.done && TickSpends(setup, run, k, prices, run[k].flying[i], before)
  {
    assert Linked(setup, run, k);
    var batch, moved := TickParts(setup, k, run[k - 1], run[k]);
    var from := ArrivedFrom(moved, |moved|, false, i);
    before := MovedSpends(setup, run, k, batch, from, prices);
  }

  /** A trip that completes in tick k had no more than dt seconds of its road left, and experienced just those. */
  lemma CompletedAtOccupancyPrices(setup: Setup, run: seq<Progress>, k: nat, i: nat, prices: Vec)
    returns (before: Motion)
    requires IsRun(setup, run) && 0 < k < |run| && |run[k - 1].landed| <= i < |run[k].landed|
    requires setup.net.Valid() && Roads(setup.net, run[k].landed[i].edges)
    requires OccupancyPrices(setup.net, run[k - 1].flying, prices)
    ensures run[k].landed[i].now.done && TickSpends(setup, run, k, prices, run[k].landed[i], before)
  {
    assert Linked(setup, run, k);
    var batch, moved := TickParts(setup, k, run[k - 1], run[k]);
    var from := ArrivedFrom(moved, |moved|, true, i - |run[k - 1].landed|);
    before := MovedSpends(setup, run, k, batch, from, prices);
  }

  // ---- what an observer sees

  lemma {:induction false} OnEdgeNonNegative(setup: Setup, run: seq<Progress>, k: nat, id: int, n: nat)
    requires IsRun(setup, run) && k < |run| && n <= |run[k].flying|
    ensures OnEdge(run[k].flying, id, n) >= 0.0
  {
    if n > 0 {
      OnEdgeNonNegative(setup, run, k, id, n - 1);
      TripsUnderWay(setup, run, k, n - 1);
    }
  }

  /** The volume of an edge of the network: v in shares of capacityVph times the scale, 0 without capacity. */
  ghost predicate IsVolumeRatio(net: Network, id: nat, v: real, ratio: real)
    requires id < net.Size()
  {
    var capacity := net.g.edges[id].capacityVph * net.bpr.capacityScale;
    if capacity > 0.0 then ratio * capacity == v else ratio == 0.0
  }

  /**
   The state observed after tick k: the clock at its end, how many trips are under way and completed, and
   on every edge the summed weight of the vehicles standing on it, also in shares of its capacity.
   */
  lemma ObservedOccupancy(setup: Setup, run: seq<Progress>, trace: seq<TickState>, k: nat, id: nat)
    requires IsRun(setup, run) && Streamed(setup, run, trace) && 0 < k < |run| && id < setup.net.Size()
    ensures var state := trace[k - 1];
      && state.tick == k && state.sinceStart == k as real * setup.dt
      && state.inFlight == |run[k].flying| && state.completed == |run[k].landed|
      && |state.vc| == setup.net.Size() && LoadAt(state.load, id) == OnEdge(run[k].flying, id, |run[k].flying|)
      && IsVolumeRatio(setup.net, id, OnEdge(run[k].flying, id, |run[k].flying|), state.vc[id])
  {
    assert Observed(setup, trace[k - 1], k, run[k]);
    ClockIsProduct(setup, k);
    LoadIsOccupancy(setup, run, k, id);
    OnEdgeNonNegative(setup, run, k, id, |run[k].flying|);
  }
}
