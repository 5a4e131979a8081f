/** How one vehicle moves along its path, carrying leftover time across edge boundaries. */
module Vehicles {
  import opened Vectors
  import opened Assignment
  import opened Bpr
  import opened Pricing
  import opened LoadStores

  /** The fields a vehicle's advance updates. */
  datatype Motion = Motion(edgeIndex: nat, dist: real, experienced: real, done: bool)

  const AT_ORIGIN := Motion(0, 0.0, 0.0, false)

  function LengthOf(net: Network, id: int): real {
    if net.g.HasEdge(id) then net.g.edges[id].lengthM else 0.0
  }

  /**
   The time an edge takes from end to end under a load. Nothing is spent on a missing or
   zero-length edge, on one of negative cost (negative speed, so stepped over) and on one
   of zero cost (infinite speed).
   */
  function Seconds(net: Network, loads: Vec, id: int): (s: real)
    ensures s >= 0.0
  {
    if LengthOf(net, id) <= 0.0 then 0.0
    else
      var cost := net.bpr.Cost(net.g.edges[id], LoadAt(loads, net.g.edges[id].id));
      if cost <= 0.0 then 0.0 else cost
  }

  function PathSeconds(net: Network, loads: Vec, edges: seq<int>, k: nat): (s: real)
    requires k <= |edges|
    ensures s >= 0.0
  {
    if k == 0 then 0.0 else PathSeconds(net, loads, edges, k - 1) + Seconds(net, loads, edges[k - 1])
  }

  /** The time left on an edge of which dist meters are behind the vehicle. */
  function Ahead(length: real, seconds: real, dist: real): real
    requires length > 0.0 && seconds > 0.0
  {
    Positive(length, seconds);
    (length - dist) / (length / seconds)
  }

  lemma Positive(a: real, b: real)
    requires a > 0.0 && b > 0.0
    ensures a / b > 0.0
  {
  }

  /** The place reached on an edge after moving for t more seconds. */
  function Onward(length: real, seconds: real, dist: real, t: real): real
    requires length > 0.0 && seconds > 0.0
  {
    dist + (length / seconds) * t
  }

  /** Moving for t seconds shortens the time ahead by exactly t. */
  lemma AheadAfter(length: real, seconds: real, dist: real, t: real)
    requires length > 0.0 && seconds > 0.0
    ensures Ahead(length, seconds, Onward(length, seconds, dist, t)) == Ahead(length, seconds, dist) - t
  {
    Positive(length, seconds);
    var speed := length / seconds;
    assert Ahead(length, seconds, dist) * speed == length - dist;
    Unscale((length - dist) - speed * t, Ahead(length, seconds, dist) - t, speed);
  }

  lemma Unscale(a: real, q: real, speed: real)
    requires speed > 0.0 && a == q * speed
    ensures a / speed == q
  {
  }

  lemma OnwardTwice(length: real, seconds: real, dist: real, a: real, b: real)
    requires length > 0.0 && seconds > 0.0
    ensures Onward(length, seconds, Onward(length, seconds, dist, a), b) == Onward(length, seconds, dist, a + b)
  {
  }

  /** One tick of motion: t seconds to spend, each edge at the speed its load allows. */
  function Drive(net: Network, loads: Vec, edges: seq<int>, m: Motion, t: real): Motion
    decreases if m.edgeIndex < |edges| then |edges| - m.edgeIndex else 0
  {
    if t <= 0.0 || m.edgeIndex >= |edges| then m.(done := m.edgeIndex >= |edges|)
    else
      var id := edges[m.edgeIndex];
      var seconds := Seconds(net, loads, id);
      if seconds == 0.0 then
        Drive(net, loads, edges, Motion(m.edgeIndex + 1, 0.0, m.experienced, false), t)
      else
        var length := LengthOf(net, id);
        var ahead := Ahead(length, seconds, m.dist);
        if ahead <= t then
          Drive(net, loads, edges, Motion(m.edgeIndex + 1, 0.0, m.experienced + ahead, false), t - ahead)
        else
          Motion(m.edgeIndex, Onward(length, seconds, m.dist, t), m.experienced + t, false)
  }

  function Advanced(net: Network, loads: Vec, edges: seq<int>, m: Motion, t: real): Motion {
    if m.done then m else Drive(net, loads, edges, m, t)
  }

  /** The speed on an edge and the time it takes to reach its end. */
  method SpeedOn(length: real, cost: real, dist: real) returns (speed: real, timeToFinish: real)
    requires length > 0.0 && cost > 0.0
    ensures timeToFinish == Ahead(length, cost, dist)
    ensures forall t :: dist + speed * t == Onward(length, cost, dist, t)
  {
    Positive(length, cost);
    speed := length / cost;
    timeToFinish := (length - dist) / speed;
  }

  class Vehicle {
    const request: nat
    const weight: real
    const edges: seq<int>
    var edgeIndex: nat
    var dist: real
    var experienced: real
    var done: bool

    constructor (request: nat, weight: real, edges: seq<int>)
      ensures this.request == request && this.weight == weight && this.edges == edges
      ensures Now() == AT_ORIGIN
    {
      this.request, this.weight, this.edges := request, weight, edges;
      edgeIndex, dist, experienced, done := 0, 0.0, 0.0, false;
    }

    function Now(): Motion
      reads this
    {
      Motion(edgeIndex, dist, experienced, done)
    }

    method Advance(net: Network, load: LoadStore, tickSeconds: real)
      modifies this
      ensures Now() == Advanced(net, load.loads, edges, old(Now()), tickSeconds)
    {
      if done {
        return;
      }
      var remaining := tickSeconds;
      while remaining > 0.0
        invariant !done && Drive(net, load.loads, edges, Now(), remaining)
                           == Drive(net, load.loads, edges, old(Now()), tickSeconds)
        decreases |edges| - edgeIndex, if remaining > 0.0 then 1 else 0
      {
        if edgeIndex >= |edges| {
          done := true;
          return;
        }
        var id := edges[edgeIndex];
        if !net.g.HasEdge(id) || net.g.edges[id].lengthM <= 0.0 {
          edgeIndex, dist := edgeIndex + 1, 0.0;
          continue;
        }
        var edge := net.g.edges[id];
        var cost := net.bpr.Cost(edge, load.Load(edge.id));
        if cost <= 0.0 {
          // A negative speed is stepped over; an infinite one crosses the edge in no time.
          edgeIndex, dist := edgeIndex + 1, 0.0;
          continue;
        }
        var speed, timeToFinish := SpeedOn(edge.lengthM, cost, dist);
        if timeToFinish <= remaining {
          experienced, remaining := experienced + timeToFinish, remaining - timeToFinish;
          edgeIndex, dist := edgeIndex + 1, 0.0;
          continue;
        }
        dist, experienced, remaining := dist + speed * remaining, experienced + remaining, 0.0;
      }
      if edgeIndex >= |edges| {
        done := true;
      }
    }
  }

  // ---- a frozen load

  /** Under a frozen load, a tick of a+b seconds is a tick of a followed by a tick of b. */
  lemma AdvanceComposes(net: Network, loads: Vec, edges: seq<int>, m: Motion, a: real, b: real)
    requires a >= 0.0 && b >= 0.0
    ensures Advanced(net, loads, edges, Advanced(net, loads, edges, m, a), b)
            == Advanced(net, loads, edges, m, a + b)
  {
    if !m.done {
      DriveComposes(net, loads, edges, m, a, b);
    }
  }

  lemma {:induction false} DriveComposes(net: Network, loads: Vec, edges: seq<int>, m: Motion, a: real, b: real)
    requires a >= 0.0 && b >= 0.0 && !m.done
    ensures Advanced(net, loads, edges, Drive(net, loads, edges, m, a), b) == Drive(net, loads, edges, m, a + b)
    decreases if m.edgeIndex < |edges| then |edges| - m.edgeIndex else 0
  {
    if a == 0.0 || m.edgeIndex >= |edges| {
      return;
    }
    var id := edges[m.edgeIndex];
    var seconds := Seconds(net, loads, id);
    var next := Motion(m.edgeIndex + 1, 0.0, m.experienced, false);
    if seconds == 0.0 {
      DriveComposes(net, loads, edges, next, a, b);
    } else {
      var length := LengthOf(net, id);
      var ahead := Ahead(length, seconds, m.dist);
      if ahead <= a {
        DriveComposes(net, loads, edges, next.(experienced := m.experienced + ahead), a - ahead, b);
        assert a + b - ahead == a - ahead + b;
      } else {
        AheadAfter(length, seconds, m.dist, a);
        OnwardTwice(length, seconds, m.dist, a, b);
      }
    }
  }

  /** Total travel time of the whole path minus what the vehicle has driven, under a frozen load. */
  function TimeAhead(net: Network, loads: Vec, edges: seq<int>, m: Motion): real {
    if m.edgeIndex >= |edges| then 0.0
    else
      var id := edges[m.edgeIndex];
      var seconds := Seconds(net, loads, id);
      (if seconds == 0.0 then 0.0 else Ahead(LengthOf(net, id), seconds, m.dist))
      + PathSeconds(net, loads, edges, |edges|) - PathSeconds(net, loads, edges, m.edgeIndex + 1)
  }

  lemma AheadFromStart(length: real, seconds: real)
    requires length > 0.0 && seconds > 0.0
    ensures Ahead(length, seconds, 0.0) == seconds
  {
    Positive(length, seconds);
    assert seconds * (length / seconds) == length;
    Unscale(length, seconds, length / seconds);
  }

  lemma TimeAheadFrom(net: Network, loads: Vec, edges: seq<int>, m: Motion)
    requires m.dist == 0.0 && m.edgeIndex <= |edges|
    ensures TimeAhead(net, loads, edges, m)
            == PathSeconds(net, loads, edges, |edges|) - PathSeconds(net, loads, edges, m.edgeIndex)
  {
    if m.edgeIndex < |edges| && Seconds(net, loads, edges[m.edgeIndex]) > 0.0 {
      AheadFromStart(LengthOf(net, edges[m.edgeIndex]), Seconds(net, loads, edges[m.edgeIndex]));
    }
  }

  /** Driving trades time ahead for experienced time, second for second. */
  lemma {:induction false} DriveTradesTime(net: Network, loads: Vec, edges: seq<int>, m: Motion, t: real)
    requires m.edgeIndex <= |edges|
    ensures var r := Drive(net, loads, edges, m, t);
      && r.edgeIndex <= |edges| && (r.done ==> r.edgeIndex == |edges|)
      && r.experienced + TimeAhead(net, loads, edges, r) == m.experienced + TimeAhead(net, loads, edges, m)
    decreases if m.edgeIndex < |edges| then |edges| - m.edgeIndex else 0
  {
    if t > 0.0 && m.edgeIndex < |edges| {
      var id := edges[m.edgeIndex];
      var seconds := Seconds(net, loads, id);
      var next := Motion(m.edgeIndex + 1, 0.0, m.experienced, false);
      TimeAheadFrom(net, loads, edges, next);
      if seconds == 0.0 {
        DriveTradesTime(net, loads, edges, next, t);
      } else {
        var length := LengthOf(net, id);
        var ahead := Ahead(length, seconds, m.dist);
        if ahead <= t {
          TimeAheadFrom(net, loads, edges, next.(experienced := m.experienced + ahead));
          DriveTradesTime(net, loads, edges, next.(experienced := m.experienced + ahead), t - ahead);
        } else {
          AheadAfter(length, seconds, m.dist, t);
        }
      }
    }
  }

  // ---- any load

  /** The vehicle stands on its current edge, not beyond its end. */
  predicate Placed(net: Network, edges: seq<int>, m: Motion) {
    && 0.0 <= m.dist && m.edgeIndex <= |edges| && (m.done ==> m.edgeIndex == |edges|)
    && (m.edgeIndex < |edges| && LengthOf(net, edges[m.edgeIndex]) > 0.0 ==>
          m.dist <= LengthOf(net, edges[m.edgeIndex]))
  }

  lemma OnwardWithin(length: real, seconds: real, dist: real, t: real)
    requires length > 0.0 && seconds > 0.0 && t >= 0.0 && 0.0 <= dist <= length
    ensures Ahead(length, seconds, dist) >= 0.0 && Onward(length, seconds, dist, t) >= 0.0
    ensures t < Ahead(length, seconds, dist) ==> Onward(length, seconds, dist, t) <= length
  {
    Positive(length, seconds);
    var speed := length / seconds;
    var ahead := Ahead(length, seconds, dist);
    assert ahead * speed == length - dist;
    MulNonNegative(t, speed);
    if ahead < 0.0 {
      MulPositive(-ahead, speed);
    }
    if t < ahead {
      MulNonNegative(ahead - t, speed);
    }
  }

  lemma MulPositive(a: real, b: real)
    requires a > 0.0 && b > 0.0
    ensures a * b > 0.0
  {
  }

  /**
   Whatever the load, a tick either leaves the vehicle under way having experienced all of it,
   or takes it to the end of its path having experienced part of it.
   */
  lemma {:induction false} DriveAccounts(net: Network, loads: Vec, edges: seq<int>, m: Motion, t: real)
    requires t >= 0.0 && Placed(net, edges, m)
    ensures var r := Drive(net, loads, edges, m, t);
      && Placed(net, edges, r) && (r.done <==> r.edgeIndex == |edges|)
      && m.experienced <= r.experienced <= m.experienced + t
      && (!r.done ==> r.experienced == m.experienced + t)
    decreases if m.edgeIndex < |edges| then |edges| - m.edgeIndex else 0
  {
    if t > 0.0 && m.edgeIndex < |edges| {
      var id := edges[m.edgeIndex];
      var seconds := Seconds(net, loads, id);
      var next := Motion(m.edgeIndex + 1, 0.0, m.experienced, false);
      if seconds == 0.0 {
        DriveAccounts(net, loads, edges, next, t);
      } else {
        var length := LengthOf(net, id);
        var ahead := Ahead(length, seconds, m.dist);
        OnwardWithin(length, seconds, m.dist, t);
        if ahead <= t {
          DriveAccounts(net, loads, edges, next.(experienced := m.experienced + ahead), t - ahead);
        }
      }
    }
  }

  /**
   A trip under a frozen load, seen after t seconds: it has experienced t or, once finished,
   exactly the summed cost of its traversable edges.
   */
  lemma FrozenTrip(net: Network, loads: Vec, edges: seq<int>, t: real)
    requires t >= 0.0
    ensures var r := Advanced(net, loads, edges, AT_ORIGIN, t);
      var total := PathSeconds(net, loads, edges, |edges|);
      && r.experienced == (if r.done then total else t)
      && (r.done ==> total <= t) && (total < t ==> r.done)
  {
    var r := Drive(net, loads, edges, AT_ORIGIN, t);
    DriveAccounts(net, loads, edges, AT_ORIGIN, t);
    DriveTradesTime(net, loads, edges, AT_ORIGIN, t);
    TimeAheadFrom(net, loads, edges, AT_ORIGIN);
    TimeAheadNonNegative(net, loads, edges, r);
  }

  lemma TimeAheadNonNegative(net: Network, loads: Vec, edges: seq<int>, m: Motion)
    requires Placed(net, edges, m)
    ensures TimeAhead(net, loads, edges, m) >= 0.0
  {
    if m.edgeIndex < |edges| {
      var id := edges[m.edgeIndex];
      PathSecondsGrow(net, loads, edges, m.edgeIndex + 1, |edges|);
      if Seconds(net, loads, id) > 0.0 {
        OnwardWithin(LengthOf(net, id), Seconds(net, loads, id), m.dist, 0.0);
      }
    }
  }

  lemma {:induction false} PathSecondsGrow(net: Network, loads: Vec, edges: seq<int>, k: nat, n: nat)
    requires k <= n <= |edges|
    ensures PathSeconds(net, loads, edges, k) <= PathSeconds(net, loads, edges, n)
  {
    if k < n {
      PathSecondsGrow(net, loads, edges, k, n - 1);
    }
  }

  /** An edge that is missing, has no length, or costs nothing or less is stepped over in no time. */
  lemma SteppedOver(net: Network, loads: Vec, edges: seq<int>, m: Motion, t: real)
    requires t > 0.0 && !m.done && m.edgeIndex < |edges|
    requires var id := edges[m.edgeIndex];
      net.g.HasEdge(id) && net.g.edges[id].lengthM > 0.0 ==>
        net.bpr.Cost(net.g.edges[id], LoadAt(loads, net.g.edges[id].id)) <= 0.0
    ensures Advanced(net, loads, edges, m, t)
            == Advanced(net, loads, edges, Motion(m.edgeIndex + 1, 0.0, m.experienced, false), t)
  {
  }

  // ---- in a valid network, told by the prices of the load

  /** Edges of the network a vehicle takes time on. */
  ghost predicate Roads(net: Network, edges: seq<int>) {
    forall k :: 0 <= k < |edges| ==>
      net.g.HasEdge(edges[k]) && net.g.edges[edges[k]].lengthM > 0.0 && net.g.edges[edges[k]].freeFlowS > 0.0
  }

  lemma RoadSeconds(net: Network, loads: Vec, edges: seq<int>, k: nat)
    requires net.Valid() && Roads(net, edges) && k < |edges|
    ensures Seconds(net, loads, edges[k]) == Prices(net, Realized, loads)[edges[k]] > 0.0
  {
    CostOrder(net.bpr, net.g.edges[edges[k]], LoadAt(loads, edges[k]));
  }

  lemma {:induction false} RoadsTake(net: Network, loads: Vec, edges: seq<int>, k: nat)
    requires net.Valid() && Roads(net, edges) && k <= |edges|
    ensures PathSeconds(net, loads, edges, k) == PriceBelow(edges, Prices(net, Realized, loads), k)
  {
    if k > 0 {
      RoadsTake(net, loads, edges, k - 1);
      RoadSeconds(net, loads, edges, k - 1);
    }
  }

  /**
   A trip over roads under a frozen load takes the summed realized price of its edges: it arrives
   once that much time has passed, and has experienced the time passed until then.
   */
  lemma FrozenTripCost(net: Network, loads: Vec, edges: seq<int>, t: real)
    requires net.Valid() && Roads(net, edges) && t >= 0.0
    ensures var r, total := Advanced(net, loads, edges, AT_ORIGIN, t), PriceOf(edges, Prices(net, Realized, loads));
      && (r.done ==> total <= t && r.experienced == total)
      && (!r.done ==> t <= total && r.experienced == t)
  {
    FrozenTrip(net, loads, edges, t);
    RoadsTake(net, loads, edges, |edges|);
  }

  /** A vehicle that stays on one road for t seconds covers t times its length over its realized cost. */
  lemma StaysOnRoad(net: Network, loads: Vec, edges: seq<int>, m: Motion, t: real)
    requires net.Valid() && Roads(net, edges) && t > 0.0 && !m.done && m.edgeIndex < |edges|
    requires Advanced(net, loads, edges, m, t).edgeIndex == m.edgeIndex
    ensures var id := edges[m.edgeIndex];
      var edge := net.g.edges[id];
      var cost := net.bpr.Cost(edge, LoadAt(loads, id));
      && cost > 0.0
      && Advanced(net, loads, edges, m, t).dist == m.dist + edge.lengthM * t / cost
      && Advanced(net, loads, edges, m, t).experienced == m.experienced + t
  {
    RoadSeconds(net, loads, edges, m.edgeIndex);
    var id := edges[m.edgeIndex];
    var length, cost := LengthOf(net, id), Seconds(net, loads, id);
    var ahead := Ahead(length, cost, m.dist);
    if ahead <= t {
      DriveForward(net, loads, edges, Motion(m.edgeIndex + 1, 0.0, m.experienced + ahead, false), t - ahead);
    }
    CoveredAtCost(length, cost, t);
  }

  lemma {:induction false} DriveForward(net: Network, loads: Vec, edges: seq<int>, m: Motion, t: real)
    ensures Drive(net, loads, edges, m, t).edgeIndex >= m.edgeIndex
    decreases if m.edgeIndex < |edges| then |edges| - m.edgeIndex else 0
  {
    if t > 0.0 && m.edgeIndex < |edges| {
      var seconds := Seconds(net, loads, edges[m.edgeIndex]);
      if seconds == 0.0 {
        DriveForward(net, loads, edges, Motion(m.edgeIndex + 1, 0.0, m.experienced, false), t);
        return;
      }
      var ahead := Ahead(LengthOf(net, edges[m.edgeIndex]), seconds, m.dist);
      if ahead <= t {
        DriveForward(net, loads, edges, Motion(m.edgeIndex + 1, 0.0, m.experienced + ahead, false), t - ahead);
      }
    }
  }

  lemma CoveredAtCost(length: real, cost: real, t: real)
    requires length > 0.0 && cost > 0.0
    ensures Onward(length, cost, 0.0, t) == length * t / cost
  {
    var covered := length * t / cost;
    assert covered * cost == length * t;
    assert (length / cost) * cost == length;
    Cancel((length / cost) * t, covered, cost);
  }

  lemma Cancel(a: real, b: real, scale: real)
    requires scale > 0.0 && a * scale == b * scale
    ensures a == b
  {
  }
}
