/** The immutable adjacency graph: dense arrays with out-edges in compressed sparse rows. */
module Adjacency {
  import opened Results
  import opened Graphs
  import KdTrees

  datatype BuildError = NodesNotDense(index: nat) | EdgesNotDense(index: nat) | FromOutOfRange(index: nat) | ToOutOfRange(index: nat)

  /** The edges below n that leave v. */
  function CountFrom(edges: seq<Edge>, v: int, n: nat): nat
    requires n <= |edges|
  {
    if n == 0 then 0 else CountFrom(edges, v, n - 1) + (if edges[n - 1].from == v then 1 else 0)
  }

  /** Where the run of node v starts: the edges leaving a lower node. */
  function StartOf(edges: seq<Edge>, v: nat): nat {
    if v == 0 then 0 else StartOf(edges, v - 1) + CountFrom(edges, v - 1, |edges|)
  }

  lemma {:induction false} CountIsOut(g: Graph, v: int, n: nat)
    requires n <= |g.edges|
    ensures |g.OutEdgesBelow(v, n)| == CountFrom(g.edges, v, n)
  {
    if n > 0 {
      CountIsOut(g, v, n - 1);
    }
  }

  lemma {:induction false} CountGrows(edges: seq<Edge>, v: int, m: nat, n: nat)
    requires m <= n <= |edges|
    ensures CountFrom(edges, v, m) <= CountFrom(edges, v, n)
  {
    if m < n {
      CountGrows(edges, v, m, n - 1);
    }
  }

  lemma {:induction false} StartGrows(edges: seq<Edge>, v: nat, w: nat)
    requires v <= w
    ensures StartOf(edges, v) <= StartOf(edges, w)
    ensures v < w ==> StartOf(edges, v) + CountFrom(edges, v, |edges|) <= StartOf(edges, w)
  {
    if v < w {
      StartGrows(edges, v, w - 1);
    }
  }

  /** Every edge leaves some node, so the runs fill the edge list exactly. */
  lemma {:induction false} CountBelow(edges: seq<Edge>, v: nat, n: nat)
    requires n <= |edges| && forall e :: 0 <= e < n ==> edges[e].from >= 0
    ensures SumBelow(edges, v, n) <= n
    ensures (forall e :: 0 <= e < n ==> edges[e].from < v) ==> SumBelow(edges, v, n) == n
  {
    if n > 0 {
      CountBelow(edges, v, n - 1);
      SumSnoc(edges, v, n - 1);
    } else {
      SumNone(edges, v);
    }
  }

  /** Over the nodes below v, the edges below n that leave them. */
  function SumBelow(edges: seq<Edge>, v: nat, n: nat): nat
    requires n <= |edges|
  {
    if v == 0 then 0 else SumBelow(edges, v - 1, n) + CountFrom(edges, v - 1, n)
  }

  lemma {:induction false} SumNone(edges: seq<Edge>, v: nat)
    ensures SumBelow(edges, v, 0) == 0
  {
    if v > 0 {
      SumNone(edges, v - 1);
    }
  }

  lemma {:induction false} SumSnoc(edges: seq<Edge>, v: nat, n: nat)
    requires n < |edges|
    ensures SumBelow(edges, v, n + 1) == SumBelow(edges, v, n) + (if 0 <= edges[n].from < v then 1 else 0)
  {
    if v > 0 {
      SumSnoc(edges, v - 1, n);
    }
  }

  lemma {:induction false} StartIsSum(edges: seq<Edge>, v: nat)
    ensures StartOf(edges, v) == SumBelow(edges, v, |edges|)
  {
    if v > 0 {
      StartIsSum(edges, v - 1);
    }
  }

  ghost predicate EndpointsIn(nodes: seq<Node>, edges: seq<Edge>, n: nat)
    requires n <= |edges|
  {
    forall e :: 0 <= e < n ==> 0 <= edges[e].from < |nodes| && 0 <= edges[e].to < |nodes|
  }

  /** Counts the out-degree of each node into the slot after it. */
  method CountDegrees(nodes: seq<Node>, edges: seq<Edge>) returns (offsets: array<int>)
    requires EndpointsIn(nodes, edges, |edges|)
    ensures fresh(offsets) && offsets.Length == |nodes| + 1 && Counted(offsets[..], edges)
  {
    offsets := new int[|nodes| + 1](_ => 0);
    for e := 0 to |edges|
      invariant offsets[0] == 0
      invariant forall v {:trigger CountFrom(edges, v, e)} :: 0 <= v < |nodes| ==> offsets[v + 1] == CountFrom(edges, v, e)
    {
      var slot := edges[e].from + 1;
      assert offsets[slot] == CountFrom(edges, edges[e].from, e);
      offsets[slot] := offsets[slot] + 1;
      var n := e + 1;
      forall v | 0 <= v < |nodes|
        ensures offsets[v + 1] == CountFrom(edges, v, n)
      {
        assert CountFrom(edges, v, n) == CountFrom(edges, v, e) + (if edges[e].from == v then 1 else 0);
      }
    }
    forall i | 0 <= i < offsets.Length
      ensures offsets[i] == if i == 0 then 0 else CountFrom(edges, i - 1, |edges|)
    {
      assert i > 0 ==> offsets[i - 1 + 1] == CountFrom(edges, i - 1, |edges|);
    }
  }

  /** The slot after each node holds its out-degree, the first slot nothing. */
  ghost predicate Counted(offsets: seq<int>, edges: seq<Edge>) {
    forall i :: 0 <= i < |offsets| ==> offsets[i] == if i == 0 then 0 else CountFrom(edges, i - 1, |edges|)
  }

  lemma CountedAt(offsets: seq<int>, edges: seq<Edge>, i: nat)
    requires Counted(offsets, edges) && 0 < i < |offsets|
    ensures StartOf(edges, i) == StartOf(edges, i - 1) + offsets[i]
  {
  }

  /** Turns counts into start offsets, in place. */
  method PrefixSums(offsets: array<int>, ghost edges: seq<Edge>)
    requires offsets.Length > 0 && Counted(offsets[..], edges)
    modifies offsets
    ensures forall v :: 0 <= v < offsets.Length ==> offsets[v] == StartOf(edges, v)
  {
    for i := 1 to offsets.Length
      invariant forall v :: 0 <= v < i ==> offsets[v] == StartOf(edges, v)
      invariant forall v :: i <= v < offsets.Length ==> offsets[v] == old(offsets[v])
    {
      CountedAt(old(offsets[..]), edges, i);
      offsets[i] := offsets[i] + offsets[i - 1];
    }
  }

  /** The run of each node holds, so far, the first n edges that leave it. */
  ghost predicate Scattered(g: Graph, ids: seq<int>, n: nat)
    requires n <= |g.edges|
  {
    forall v :: 0 <= v < |g.nodes| ==> RunHolds(g, ids, v, n)
  }

  ghost predicate RunHolds(g: Graph, ids: seq<int>, v: nat, n: nat)
    requires n <= |g.edges|
  {
    var lo, out := StartOf(g.edges, v), g.OutEdgesBelow(v, n);
    lo + |out| <= |ids| && ids[lo..lo + |out|] == out
  }

  lemma ScatterStep(g: Graph, ids: seq<int>, e: nat, at: nat)
    requires e < |g.edges| == |ids| && EndpointsIn(g.nodes, g.edges, |g.edges|) && Scattered(g, ids, e)
    requires at == StartOf(g.edges, g.edges[e].from) + CountFrom(g.edges, g.edges[e].from, e)
    ensures at < |ids| && Scattered(g, ids[at := e], e + 1)
  {
    RunFits(g, g.edges[e].from, e);
    var after, n := ids[at := e], e + 1;
    forall v | 0 <= v < |g.nodes|
      ensures RunHolds(g, after, v, n)
    {
      assert RunHolds(g, ids, v, e);
      if v == g.edges[e].from {
        OwnRun(g, ids, e, v);
      } else {
        OtherRun(g, ids, e, at, v);
      }
    }
  }

  /** There is room for one more edge in the run of its origin. */
  lemma RunFits(g: Graph, v: nat, e: nat)
    requires e < |g.edges| && EndpointsIn(g.nodes, g.edges, |g.edges|) && v == g.edges[e].from
    ensures StartOf(g.edges, v) + CountFrom(g.edges, v, e) < StartOf(g.edges, v + 1) <= |g.edges|
  {
    CountGrows(g.edges, v, e + 1, |g.edges|);
    StartIsSum(g.edges, v + 1);
    CountBelow(g.edges, v + 1, |g.edges|);
  }

  lemma OwnRun(g: Graph, ids: seq<int>, e: nat, v: nat)
    requires e < |g.edges| == |ids| && EndpointsIn(g.nodes, g.edges, |g.edges|) && v == g.edges[e].from
    requires RunHolds(g, ids, v, e)
    ensures var at := StartOf(g.edges, v) + CountFrom(g.edges, v, e);
      at < |ids| && RunHolds(g, ids[at := e], v, e + 1)
  {
    RunFits(g, v, e);
    CountIsOut(g, v, e);
    var lo, out := StartOf(g.edges, v), g.OutEdgesBelow(v, e);
    var at := lo + |out|;
    assert ids[at := e][lo..at + 1] == ids[lo..at] + [e];
  }

  lemma OtherRun(g: Graph, ids: seq<int>, e: nat, at: nat, v: nat)
    requires e < |g.edges| == |ids| && EndpointsIn(g.nodes, g.edges, |g.edges|) && v < |g.nodes| && v != g.edges[e].from
    requires at == StartOf(g.edges, g.edges[e].from) + CountFrom(g.edges, g.edges[e].from, e) < |ids|
    requires RunHolds(g, ids, v, e)
    ensures RunHolds(g, ids[at := e], v, e + 1)
  {
    var lo, out := StartOf(g.edges, v), g.OutEdgesBelow(v, e);
    CountIsOut(g, v, e);
    OutsideRun(g, e, v);
    SliceUntouched(ids, lo, lo + |out|, at, e);
  }

  lemma SliceUntouched(ids: seq<int>, lo: nat, hi: nat, at: nat, e: int)
    requires lo <= hi <= |ids| && at < |ids| && (at < lo || hi <= at)
    ensures ids[at := e][lo..hi] == ids[lo..hi]
  {
  }

  /** The next slot of one node's run lies outside what another node's run holds so far. */
  lemma OutsideRun(g: Graph, e: nat, v: nat)
    requires e < |g.edges| && EndpointsIn(g.nodes, g.edges, |g.edges|) && v != g.edges[e].from
    ensures var from := g.edges[e].from;
      var at := StartOf(g.edges, from) + CountFrom(g.edges, from, e);
      at < StartOf(g.edges, v) || StartOf(g.edges, v) + CountFrom(g.edges, v, e) <= at
  {
    var from := g.edges[e].from;
    RunFits(g, from, e);
    CountGrows(g.edges, v, e, |g.edges|);
    if v < from {
      StartGrows(g.edges, v, from);
    } else {
      StartGrows(g.edges, from + 1, v);
    }
  }

  /** Places each edge id at its origin's cursor. */
  method Scatter(g: Graph, offsets: array<int>) returns (ids: array<int>)
    requires EndpointsIn(g.nodes, g.edges, |g.edges|) && offsets.Length == |g.nodes| + 1
    requires forall e :: 0 <= e < |g.edges| ==> g.edges[e].id == e
    requires forall v :: 0 <= v < offsets.Length ==> offsets[v] == StartOf(g.edges, v)
    ensures fresh(ids) && ids.Length == |g.edges| && Scattered(g, ids[..], |g.edges|)
  {
    ids := new int[|g.edges|];
    var cursor := new int[|g.nodes|](v requires 0 <= v < |g.nodes| && v < offsets.Length reads offsets => offsets[v]);
    NothingScattered(g, ids[..]);
    for e := 0 to |g.edges|
      invariant Scattered(g, ids[..], e)
      invariant forall v {:trigger cursor[v]} :: 0 <= v < |g.nodes| ==> cursor[v] == StartOf(g.edges, v) + CountFrom(g.edges, v, e)
    {
      var from := g.edges[e].from;
      ScatterStep(g, ids[..], e, cursor[from]);
      ids[cursor[from]] := g.edges[e].id;
      cursor[from] := cursor[from] + 1;
    }
  }

  lemma NothingScattered(g: Graph, ids: seq<int>)
    requires |ids| == |g.edges| && EndpointsIn(g.nodes, g.edges, |g.edges|)
    ensures Scattered(g, ids, 0)
  {
    forall v | 0 <= v < |g.nodes|
      ensures RunHolds(g, ids, v, 0)
    {
      StartIsSum(g.edges, v);
      CountBelow(g.edges, v, |g.edges|);
    }
  }

  /** The node positions, each carrying its node's id. */
  function NodePoints(nodes: seq<Node>): (pts: seq<KdTrees.KdPoint>)
    ensures |pts| == |nodes|
    ensures forall i :: 0 <= i < |nodes| ==> pts[i] == KdTrees.KdPoint(nodes[i].pos, nodes[i].id)
  {
    seq(|nodes|, i requires 0 <= i < |nodes| => KdTrees.KdPoint(nodes[i].pos, nodes[i].id))
  }

  class AdjacencyGraph {
    const graph: Graph
    const outOffsets: array<int>
    const outEdgeIds: array<int>
    const kd: KdTrees.KdTree
    ghost const kdShape: KdTrees.Shape

    /** The arrays are the compressed rows of the graph, the tree an index of its node positions. */
    ghost predicate Valid()
      reads outOffsets, outEdgeIds, kd
    {
      Rows() && Indexed()
    }

    ghost predicate Indexed()
      reads kd
    {
      kd.pts == NodePoints(graph.nodes) && KdTrees.IsTree(kd.pts, kd.nodes, kd.root, kdShape)
    }

    ghost predicate Rows()
      reads outOffsets, outEdgeIds
    {
      && graph.Valid() && outOffsets.Length == |graph.nodes| + 1 && outEdgeIds.Length == |graph.edges|
      && (forall v :: 0 <= v < outOffsets.Length ==> outOffsets[v] == StartOf(graph.edges, v))
      && Scattered(graph, outEdgeIds[..], |graph.edges|)
    }

    constructor (graph: Graph, outOffsets: array<int>, outEdgeIds: array<int>, kd: KdTrees.KdTree,
                 ghost kdShape: KdTrees.Shape)
      ensures this.graph == graph && this.outOffsets == outOffsets && this.outEdgeIds == outEdgeIds
      ensures this.kd == kd && this.kdShape == kdShape
    {
      this.graph, this.outOffsets, this.outEdgeIds, this.kd, this.kdShape := graph, outOffsets, outEdgeIds, kd, kdShape;
    }

    /** A node at minimum distance, unless there is none. */
    method NearestNode(q: LatLon, m: KdTrees.Metric) returns (v: Option<int>)
      requires Valid() && KdTrees.Admissible(m, q, NodePoints(graph.nodes))
      ensures v.None? <==> graph.nodes == []
      ensures v.Some? ==> graph.HasNode(v.value)
      ensures v.Some? ==> forall u :: graph.HasNode(u) ==>
        m.distance(q, graph.nodes[v.value].pos) <= m.distance(q, graph.nodes[u].pos)
    {
      v := KdTrees.Nearest(kd, q, m, kdShape);
      if v.Some? {
        ghost var pts := NodePoints(graph.nodes);
        ghost var i :| 0 <= i < |pts| && pts[i].idx == v.value && KdTrees.IsNearest(m, q, pts, i);
        assert forall u :: graph.HasNode(u) ==> pts[u].pos == graph.nodes[u].pos;
      }
    }

    /** The ids of the edges leaving v in increasing order; none for an unknown node. */
    method OutEdgeIds(v: int) returns (ids: seq<int>)
      requires Valid()
      ensures ids == if graph.HasNode(v) then graph.OutEdgeIds(v) else []
    {
      if v < 0 || v >= |graph.nodes| {
        return [];
      }
      var low, high := outOffsets[v], outOffsets[v + 1];
      assert RunHolds(graph, outEdgeIds[..], v, |graph.edges|);
      CountIsOut(graph, v, |graph.edges|);
      if low == high {
        return [];
      }
      ids := outEdgeIds[low..high];
    }

    /** The edges leaving v, in increasing id order. */
    method Neighbors(v: int) returns (edges: seq<Edge>)
      requires Valid()
      ensures var ids := if graph.HasNode(v) then graph.OutEdgeIds(v) else [];
        |edges| == |ids| && forall i :: 0 <= i < |ids| ==> graph.HasEdge(ids[i]) && edges[i] == graph.edges[ids[i]]
    {
      var ids := OutEdgeIds(v);
      edges := [];
      for i := 0 to |ids|
        invariant |edges| == i && forall j :: 0 <= j < i ==> graph.HasEdge(ids[j]) && edges[j] == graph.edges[ids[j]]
      {
        edges := edges + [graph.edges[ids[i]]];
      }
    }
  }

  /** All nodes dense, and the first n edges dense with both ends among them. */
  ghost predicate SoundBelow(nodes: seq<Node>, edges: seq<Edge>, n: nat)
    requires n <= |edges|
  {
    && (forall v :: 0 <= v < |nodes| ==> nodes[v].id == v) && EndpointsIn(nodes, edges, n)
    && forall e :: 0 <= e < n ==> edges[e].id == e
  }

  /** The error names the first element at fault, and what is wrong with it. */
  ghost predicate FirstFault(nodes: seq<Node>, edges: seq<Edge>, e: BuildError) {
    match e
    case NodesNotDense(i) => i < |nodes| && nodes[i].id != i && forall v :: 0 <= v < i ==> nodes[v].id == v
    case EdgesNotDense(i) => i < |edges| && SoundBelow(nodes, edges, i) && edges[i].id != i
    case FromOutOfRange(i) =>
      i < |edges| && SoundBelow(nodes, edges, i) && edges[i].id == i && !(0 <= edges[i].from < |nodes|)
    case ToOutOfRange(i) =>
      && i < |edges| && SoundBelow(nodes, edges, i) && edges[i].id == i && 0 <= edges[i].from < |nodes|
      && !(0 <= edges[i].to < |nodes|)
  }

  /** Fails exactly when ids are not dense or an endpoint is no node; else the graph with its rows. */
  method New(nodes: seq<Node>, edges: seq<Edge>) returns (r: Result<AdjacencyGraph, BuildError>)
    ensures r.Ok? <==> Graph(nodes, edges).Valid()
    ensures r.Ok? ==> fresh(r.value) && r.value.graph == Graph(nodes, edges) && r.value.Valid()
    ensures r.Err? ==> FirstFault(nodes, edges, r.error)
  {
    for i := 0 to |nodes|
      invariant forall v :: 0 <= v < i ==> nodes[v].id == v
    {
      if nodes[i].id != i {
        return Err(NodesNotDense(i));
      }
    }
    for i := 0 to |edges|
      invariant EndpointsIn(nodes, edges, i) && forall e :: 0 <= e < i ==> edges[e].id == e
    {
      if edges[i].id != i {
        return Err(EdgesNotDense(i));
      }
      if edges[i].from < 0 || edges[i].from >= |nodes| {
        return Err(FromOutOfRange(i));
      }
      if edges[i].to < 0 || edges[i].to >= |nodes| {
        return Err(ToOutOfRange(i));
      }
    }
    var g := Graph(nodes, edges);
    var offsets := CountDegrees(nodes, edges);
    PrefixSums(offsets, edges);
    var ids := Scatter(g, offsets);
    var kd;
    ghost var shape;
    kd, shape := KdTrees.NewKdTree(NodePoints(nodes));
    var graph := new AdjacencyGraph(g, offsets, ids, kd, shape);
    return Ok(graph);
  }
}
