/** The A* heuristic built from endpoint chords, and the single-pair A* query. */
module AStar {
  import opened Costs
  import opened Results
  import opened Graphs
  import opened Labels
  import opened Vectors
  import opened Assignment
  import ShortestPaths

  /** A straight-line distance in metres between two positions. */
  type Distance = (LatLon, LatLon) -> NonNegative

  /** What the heuristic needs of a distance: zero on the diagonal and the triangle inequality. */
  ghost predicate IsMetric(chord: Distance) {
    && (forall a :: chord(a, a) == 0.0)
    && (forall a, b, c :: chord(a, c) <= chord(a, b) + chord(b, c))
  }

  /** The free-flow time of each edge. */
  function FreeFlowTimes(g: Graph): (times: Vec)
    ensures |times| == |g.edges| && forall e :: 0 <= e < |g.edges| ==> times[e] == g.edges[e].freeFlowS
  {
    seq(|g.edges|, e requires 0 <= e < |g.edges| => g.edges[e].freeFlowS)
  }

  ghost predicate EdgesIn(g: Graph, p: seq<int>) {
    forall i :: 0 <= i < |p| ==> g.HasEdge(p[i])
  }

  /** Free-flow time as a weight. */
  function FreeFlowWeight(e: Edge): Cost {
    if e.freeFlowS >= 0.0 then Fin(e.freeFlowS) else ZERO
  }

  /** No edge is faster along its chord than `speed`. */
  ghost predicate BoundsSpeed(g: Graph, chord: Distance, speed: real) {
    forall e :: g.HasEdge(e) ==> WithinSpeed(g, chord, speed, g.edges[e])
  }

  ghost predicate WithinSpeed(g: Graph, chord: Distance, speed: real, e: Edge) {
    e.freeFlowS > 0.0 && g.HasNode(e.from) && g.HasNode(e.to) ==>
      chord(g.nodes[e.from].pos, g.nodes[e.to].pos) <= speed * e.freeFlowS
  }

  ghost predicate Attains(g: Graph, chord: Distance, speed: real, e: Edge) {
    && e.freeFlowS > 0.0 && g.HasNode(e.from) && g.HasNode(e.to)
    && chord(g.nodes[e.from].pos, g.nodes[e.to].pos) == speed * e.freeFlowS
  }

  /** The largest chord speed of any usable edge; 0 if there is none. */
  method MaxFreeFlowSpeed(g: Graph, chord: Distance) returns (maxSpeed: NonNegative)
    ensures BoundsSpeed(g, chord, maxSpeed)
    ensures maxSpeed > 0.0 ==> exists e :: g.HasEdge(e) && Attains(g, chord, maxSpeed, g.edges[e])
  {
    maxSpeed := 0.0;
    for id := 0 to |g.edges|
      invariant forall e :: 0 <= e < id ==> WithinSpeed(g, chord, maxSpeed, g.edges[e])
      invariant maxSpeed > 0.0 ==> exists e :: 0 <= e < id && Attains(g, chord, maxSpeed, g.edges[e])
    {
      var edge := g.edges[id];
      if edge.freeFlowS > 0.0 && g.HasNode(edge.from) && g.HasNode(edge.to) {
        var length := chord(g.nodes[edge.from].pos, g.nodes[edge.to].pos);
        if length > 0.0 {
          var speed := length / edge.freeFlowS;
          SpeedTimesTime(length, edge.freeFlowS);
          if speed > maxSpeed {
            SpeedMonotone(g, chord, maxSpeed, speed, id);
            maxSpeed := speed;
            assert Attains(g, chord, maxSpeed, g.edges[id]);
          } else {
            MulLeq(speed, maxSpeed, edge.freeFlowS);
          }
        } else {
          MulLeq(0.0, maxSpeed, edge.freeFlowS);
        }
      }
    }
  }

  lemma SpeedTimesTime(length: real, t: real)
    requires t > 0.0
    ensures (length / t) * t == length
  {
  }

  lemma MulLeq(a: real, b: real, t: real)
    requires a <= b && t >= 0.0
    ensures a * t <= b * t
  {
  }

  lemma SpeedMonotone(g: Graph, chord: Distance, slow: real, fast: real, n: nat)
    requires slow <= fast && n <= |g.edges|
    requires forall e :: 0 <= e < n ==> WithinSpeed(g, chord, slow, g.edges[e])
    ensures forall e :: 0 <= e < n ==> WithinSpeed(g, chord, fast, g.edges[e])
  {
    forall e | 0 <= e < n
      ensures WithinSpeed(g, chord, fast, g.edges[e])
    {
      if g.edges[e].freeFlowS > 0.0 {
        MulLeq(slow, fast, g.edges[e].freeFlowS);
      }
    }
  }

  /** Chord to dst over the speed bound; 0 for an unknown node or when there is no bound. */
  function HeuristicTo(g: Graph, chord: Distance, maxSpeed: NonNegative, dst: int): Heuristic {
    (node: int) => ChordTime(g, chord, maxSpeed, dst, node)
  }

  function ChordTime(g: Graph, chord: Distance, maxSpeed: NonNegative, dst: int, node: int): Cost {
    if maxSpeed == 0.0 || !g.HasNode(dst) || !g.HasNode(node) then ZERO
    else TravelTime(chord(g.nodes[node].pos, g.nodes[dst].pos), maxSpeed)
  }

  function TravelTime(length: NonNegative, speed: NonNegative): (c: Cost)
    requires speed > 0.0
    ensures c.Fin? && c.value * speed == length
  {
    var time := length / speed;
    assert time * speed == length;
    MulCancel(0.0, time, speed);
    Fin(time)
  }

  /** At a known node the estimate is exactly the chord to the destination at the top speed. */
  lemma EstimateIsChordTime(g: Graph, chord: Distance, maxSpeed: NonNegative, dst: int, node: int)
    requires g.HasNode(dst) && g.HasNode(node)
    ensures var h := HeuristicTo(g, chord, maxSpeed, dst)(node);
      && h.Fin?
      && if maxSpeed > 0.0 then h.value * maxSpeed == chord(g.nodes[node].pos, g.nodes[dst].pos) else h.value == 0.0
  {
    if maxSpeed > 0.0 {
      assert TravelTime(chord(g.nodes[node].pos, g.nodes[dst].pos), maxSpeed).Fin?;
    }
  }

  lemma MulCancel(a: real, b: real, s: real)
    requires s > 0.0 && a * s <= b * s
    ensures a <= b
  {
  }

  /** Travelling first + rest takes at most `time` longer than travelling the rest. */
  lemma TimeByStep(whole: real, first: real, rest: real, time: real, speed: real, tWhole: real, tRest: real)
    requires speed > 0.0 && whole <= first + rest && first <= speed * time
    requires tWhole * speed == whole && tRest * speed == rest
    ensures tWhole <= time + tRest
  {
    assert (time + tRest) * speed == speed * time + rest;
    MulCancel(tWhole, time + tRest, speed);
  }

  /** Over positive free-flow times the chord heuristic is consistent, whatever the edge lengths say. */
  lemma ChordHeuristicConsistent(g: Graph, chord: Distance, maxSpeed: NonNegative, dst: int)
    requires g.Valid() && IsMetric(chord) && BoundsSpeed(g, chord, maxSpeed)
    requires forall e :: g.HasEdge(e) ==> g.edges[e].freeFlowS > 0.0
    ensures Consistent(g, FreeFlowWeight, Some(HeuristicTo(g, chord, maxSpeed, dst)), dst)
  {
    var h := Some(HeuristicTo(g, chord, maxSpeed, dst));
    if maxSpeed > 0.0 && g.HasNode(dst) {
      assert TravelTime(0.0, maxSpeed).value * maxSpeed == 0.0;
    }
    forall e | g.HasEdge(e)
      ensures Leq(Estimate(h, g.edges[e].from),
                  Plus(FreeFlowWeight(g.edges[e]), Estimate(h, g.edges[e].to)))
    {
      var edge := g.edges[e];
      if maxSpeed > 0.0 && g.HasNode(dst) {
        var a, b, c := g.nodes[edge.from].pos, g.nodes[edge.to].pos, g.nodes[dst].pos;
        assert WithinSpeed(g, chord, maxSpeed, edge);
        TimeByStep(chord(a, c), chord(a, b), chord(b, c), edge.freeFlowS, maxSpeed,
                   Estimate(h, edge.from).value, Estimate(h, edge.to).value);
      }
    }
  }

  /** The A* router: the graph, its distance, and the speed bound scanned once at construction. */
  class Router {
    const g: Graph
    const chord: Distance
    const maxSpeed: NonNegative

    ghost predicate Valid() {
      && g.Valid() && IsMetric(chord) && BoundsSpeed(g, chord, maxSpeed)
      && forall e :: g.HasEdge(e) ==> g.edges[e].freeFlowS > 0.0
    }

    constructor (g: Graph, chord: Distance)
      requires g.Valid() && IsMetric(chord)
      requires forall e :: g.HasEdge(e) ==> g.edges[e].freeFlowS > 0.0
      ensures Valid() && this.g == g && this.chord == chord
    {
      var speed := MaxFreeFlowSpeed(g, chord);
      this.g, this.chord, this.maxSpeed := g, chord, speed;
    }

    /** Finds a path exactly when Dijkstra would, at the same cost, expanding no node twice. */
    method Route(src: int, dst: int) returns (path: seq<int>, cost: Cost, found: bool, ghost trace: seq<Expansion>)
      requires Valid()
      ensures found <==> g.HasNode(src) && g.HasNode(dst) && exists p :: IsWalk(g, src, p, dst)
      ensures found ==> IsPath(g, src, path, dst) && EdgesIn(g, path)
      ensures found ==> cost.Fin? && cost.value == PriceOf(path, FreeFlowTimes(g))
      ensures found ==> forall p :: IsWalk(g, src, p, dst) && EdgesIn(g, p) ==>
        cost.value <= PriceOf(p, FreeFlowTimes(g))
      ensures NoRepeat(trace)
      ensures var s := Search(g, FreeFlowWeight, Some(HeuristicTo(g, chord, maxSpeed, dst)), src, dst);
        Accounts(s, found, path, trace) && WithinOptimum(s, trace)
    {
      var h := Some(HeuristicTo(g, chord, maxSpeed, dst));
      ChordHeuristicConsistent(g, chord, maxSpeed, dst);
      ConsistentIsAdmissible(Search(g, FreeFlowWeight, h, src, dst));
      path, cost, found, trace := ShortestPaths.ShortestPath(g, src, dst, FreeFlowWeight, h, null);
      forall p | IsWalk(g, src, p, dst) && g.HasNode(src)
        ensures EdgesIn(g, p) && PathCost(g, FreeFlowWeight, p) == Fin(PriceOf(p, FreeFlowTimes(g)))
      {
        WalkStaysInside(g, src, p, dst);
        FreeFlowCostIsSum(g, p, |p|);
        assert p[..|p|] == p;
      }
    }
  }

  /** What the search charges a path is the sum of its free-flow times. */
  lemma {:induction false} FreeFlowCostIsSum(g: Graph, p: seq<int>, k: nat)
    requires k <= |p| && EdgesIn(g, p) && forall e :: g.HasEdge(e) ==> g.edges[e].freeFlowS > 0.0
    ensures PriceBelow(p, FreeFlowTimes(g), k) >= 0.0
    ensures PathCost(g, FreeFlowWeight, p[..k]) == Fin(PriceBelow(p, FreeFlowTimes(g), k))
  {
    if k > 0 {
      FreeFlowCostIsSum(g, p, k - 1);
      assert p[..k][..k - 1] == p[..k - 1];
    }
  }

  // ---- a distance the assumptions hold of

  /** Planar distance along the two axes. */
  function Planar(a: LatLon, b: LatLon): NonNegative {
    Abs(a.lat - b.lat) + Abs(a.lon - b.lon)
  }

  lemma PlanarIsMetric()
    ensures IsMetric(Planar)
  {
    forall a: LatLon, b: LatLon, c: LatLon
      ensures Planar(a, c) <= Planar(a, b) + Planar(b, c)
    {
    }
  }
}
