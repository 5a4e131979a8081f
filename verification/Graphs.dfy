/** The read-only road network and the walks through it. */
module Graphs {
  import opened Costs

  datatype LatLon = LatLon(lat: real, lon: real)

  datatype Node = Node(id: int, pos: LatLon)

  datatype Edge = Edge(
    id: int, segment: string, from: int, to: int, lengthM: real, freeFlowS: real, capacityVph: real)

  datatype Graph = Graph(nodes: seq<Node>, edges: seq<Edge>) {

    function NodeCount(): nat { |nodes| }

    predicate HasNode(v: int) { 0 <= v < |nodes| }

    predicate HasEdge(e: int) { 0 <= e < |edges| }

    /** Ids are dense and every endpoint is a node: what the graph constructor checks. */
    predicate Valid() {
      && (forall v :: 0 <= v < |nodes| ==> nodes[v].id == v)
      && (forall e :: 0 <= e < |edges| ==>
            edges[e].id == e && HasNode(edges[e].from) && HasNode(edges[e].to))
    }

    /** The ids of the edges leaving v among the first n edges, in increasing order. */
    function OutEdgesBelow(v: int, n: nat): (ids: seq<int>)
      requires n <= |edges|
      ensures forall e :: e in ids <==> 0 <= e < n && edges[e].from == v
      ensures forall i :: 0 <= i < |ids| ==> 0 <= ids[i] < n
      ensures forall i, j :: 0 <= i < j < |ids| ==> ids[i] < ids[j]
    {
      if n == 0 then []
      else if edges[n - 1].from == v then OutEdgesBelow(v, n - 1) + [n - 1]
      else OutEdgesBelow(v, n - 1)
    }

    function OutEdgeIds(v: int): seq<int> { OutEdgesBelow(v, |edges|) }
  }

  type Weight = Edge -> Cost

  /** The node a walk from `start` along `p` stands on after i edges. */
  function NodeAt(g: Graph, start: int, p: seq<int>, i: nat): int
    requires i <= |p|
  {
    if i == 0 then start else if g.HasEdge(p[i - 1]) then g.edges[p[i - 1]].to else -1
  }

  /** p is a chain of edges leading from a to b. */
  ghost predicate IsWalk(g: Graph, a: int, p: seq<int>, b: int) {
    && (forall i {:trigger NodeAt(g, a, p, i)} :: 0 <= i < |p| ==>
          g.HasEdge(p[i]) && g.edges[p[i]].from == NodeAt(g, a, p, i))
    && NodeAt(g, a, p, |p|) == b
  }

  ghost predicate Loopless(g: Graph, a: int, p: seq<int>) {
    forall i, j :: 0 <= i < j <= |p| ==> NodeAt(g, a, p, i) != NodeAt(g, a, p, j)
  }

  ghost predicate IsPath(g: Graph, a: int, p: seq<int>, b: int) {
    IsWalk(g, a, p, b) && Loopless(g, a, p)
  }

  /** The summed weight of a chain of edges; an unknown edge id costs +Inf. */
  function PathCost(g: Graph, w: Weight, p: seq<int>): Cost {
    if p == [] then ZERO
    else
      var last := p[|p| - 1];
      Plus(PathCost(g, w, p[..|p| - 1]), if g.HasEdge(last) then w(g.edges[last]) else Inf)
  }

  lemma {:induction false} CostOfConcat(g: Graph, w: Weight, p: seq<int>, q: seq<int>)
    ensures PathCost(g, w, p + q) == Plus(PathCost(g, w, p), PathCost(g, w, q))
  {
    if q == [] {
      assert p + q == p;
    } else {
      CostOfConcat(g, w, p, q[..|q| - 1]);
      assert (p + q)[..|p + q| - 1] == p + q[..|q| - 1];
    }
  }

  lemma CostOfSplit(g: Graph, w: Weight, p: seq<int>, i: nat)
    requires i <= |p|
    ensures PathCost(g, w, p) == Plus(PathCost(g, w, p[..i]), PathCost(g, w, p[i..]))
    ensures Leq(PathCost(g, w, p[..i]), PathCost(g, w, p))
  {
    assert p == p[..i] + p[i..];
    CostOfConcat(g, w, p[..i], p[i..]);
  }

  lemma CostOfSnoc(g: Graph, w: Weight, p: seq<int>, e: int)
    requires g.HasEdge(e)
    ensures PathCost(g, w, p + [e]) == Plus(PathCost(g, w, p), w(g.edges[e]))
  {
    assert (p + [e])[..|p|] == p;
  }

  /** The i-th edge of a walk leaves its i-th node and reaches the next. */
  lemma WalkEdge(g: Graph, a: int, p: seq<int>, b: int, i: nat)
    requires IsWalk(g, a, p, b) && i < |p|
    ensures g.HasEdge(p[i]) && g.edges[p[i]].from == NodeAt(g, a, p, i)
    ensures g.edges[p[i]].to == NodeAt(g, a, p, i + 1)
  {
    var here := NodeAt(g, a, p, i);
  }

  lemma NodeAtSlice(g: Graph, a: int, p: seq<int>, i: nat, j: nat)
    requires i <= |p|
    ensures j <= i ==> NodeAt(g, a, p[..i], j) == NodeAt(g, a, p, j)
    ensures i + j <= |p| ==> NodeAt(g, NodeAt(g, a, p, i), p[i..], j) == NodeAt(g, a, p, i + j)
  {
  }

  /** A walk split at i is a walk to its i-th node followed by a walk from there. */
  lemma WalkSplit(g: Graph, a: int, p: seq<int>, b: int, i: nat)
    requires IsWalk(g, a, p, b) && i <= |p|
    ensures IsWalk(g, a, p[..i], NodeAt(g, a, p, i))
    ensures IsWalk(g, NodeAt(g, a, p, i), p[i..], b)
  {
    forall j | 0 <= j < |p|
      ensures g.HasEdge(p[j]) && g.edges[p[j]].from == NodeAt(g, a, p, j)
    {
      WalkEdge(g, a, p, b, j);
    }
    forall j | 0 <= j <= |p|
      ensures j <= i ==> NodeAt(g, a, p[..i], j) == NodeAt(g, a, p, j)
      ensures i + j <= |p| ==> NodeAt(g, NodeAt(g, a, p, i), p[i..], j) == NodeAt(g, a, p, i + j)
    {
      NodeAtSlice(g, a, p, i, j);
    }
  }

  lemma WalkConcat(g: Graph, a: int, p: seq<int>, b: int, q: seq<int>, c: int)
    requires IsWalk(g, a, p, b) && IsWalk(g, b, q, c)
    ensures IsWalk(g, a, p + q, c)
  {
    forall i | 0 <= i < |p + q|
      ensures g.HasEdge((p + q)[i]) && g.edges[(p + q)[i]].from == NodeAt(g, a, p + q, i)
    {
      NodeAtConcat(g, a, p, b, q, i);
      if i < |p| {
        WalkEdge(g, a, p, b, i);
      } else {
        WalkEdge(g, b, q, c, i - |p|);
      }
    }
    NodeAtConcat(g, a, p, b, q, |p| + |q|);
  }

  lemma NodeAtConcat(g: Graph, a: int, p: seq<int>, b: int, q: seq<int>, i: nat)
    requires i <= |p| + |q| && NodeAt(g, a, p, |p|) == b
    ensures NodeAt(g, a, p + q, i) ==
            if i <= |p| then NodeAt(g, a, p, i) else NodeAt(g, b, q, i - |p|)
  {
  }

  /** A loopless path extended by an edge to a node it has not visited. */
  lemma PathSnoc(g: Graph, a: int, p: seq<int>, e: int)
    requires g.HasEdge(e) && IsPath(g, a, p, g.edges[e].from)
    requires forall i :: 0 <= i <= |p| ==> NodeAt(g, a, p, i) != g.edges[e].to
    ensures IsPath(g, a, p + [e], g.edges[e].to)
    ensures forall i :: 0 <= i <= |p| ==> NodeAt(g, a, p + [e], i) == NodeAt(g, a, p, i)
  {
    var q := p + [e];
    assert forall i :: 0 <= i <= |p| ==> NodeAt(g, a, q, i) == NodeAt(g, a, p, i);
    assert NodeAt(g, a, q, |p| + 1) == g.edges[e].to;
    forall i | 0 <= i < |q|
      ensures g.HasEdge(q[i]) && g.edges[q[i]].from == NodeAt(g, a, q, i)
    {
      if i < |p| {
        WalkEdge(g, a, p, g.edges[e].from, i);
      }
    }
  }

  /** Every node a walk of a valid graph visits is a node of the graph. */
  lemma WalkStaysInside(g: Graph, a: int, p: seq<int>, b: int)
    requires g.Valid() && g.HasNode(a) && IsWalk(g, a, p, b)
    ensures forall i :: 0 <= i <= |p| ==> g.HasNode(NodeAt(g, a, p, i))
    ensures forall i :: 0 <= i < |p| ==> g.HasEdge(p[i])
  {
    forall i | 0 <= i < |p|
      ensures g.HasEdge(p[i]) && g.HasNode(NodeAt(g, a, p, i + 1))
    {
      WalkEdge(g, a, p, b, i);
    }
    forall i | 0 < i <= |p|
      ensures g.HasNode(NodeAt(g, a, p, i))
    {
      assert g.HasNode(NodeAt(g, a, p, (i - 1) + 1));
    }
  }

  // ---- how many loopless paths there can be

  ghost function Below(n: nat): (s: set<int>)
    ensures |s| == n && forall x :: x in s <==> 0 <= x < n
  {
    if n == 0 then {} else Below(n - 1) + {n - 1}
  }

  lemma {:induction false} DistinctBelow(s: seq<int>, n: nat)
    requires forall i :: 0 <= i < |s| ==> 0 <= s[i] < n
    requires forall i, j :: 0 <= i < j < |s| ==> s[i] != s[j]
    ensures |s| <= n
  {
    DistinctWithin(s, Below(n));
  }

  /** n distinct numbers below n are all the numbers below n. */
  lemma Pigeonhole(s: seq<int>, n: nat, x: int)
    requires |s| == n && forall i :: 0 <= i < |s| ==> 0 <= s[i] < n
    requires forall i, j :: 0 <= i < j < |s| ==> s[i] != s[j]
    requires 0 <= x < n
    ensures x in s
  {
    if x !in s {
      DistinctWithin(s, Below(n) - {x});
    }
  }

  lemma {:induction false} DistinctWithin(s: seq<int>, t: set<int>)
    requires forall i :: 0 <= i < |s| ==> s[i] in t
    requires forall i, j :: 0 <= i < j < |s| ==> s[i] != s[j]
    ensures |s| <= |t|
  {
    if s != [] {
      var last := s[|s| - 1];
      DistinctWithin(s[..|s| - 1], t - {last});
    }
  }

  /** All sequences of edge ids of length at most n. */
  ghost function EdgeSeqs(g: Graph, n: nat): set<seq<int>> {
    if n == 0 then {[]}
    else
      var shorter := EdgeSeqs(g, n - 1);
      shorter + set p, e | p in shorter && e in Below(|g.edges|) :: p + [e]
  }

  lemma {:induction false} InEdgeSeqs(g: Graph, p: seq<int>, n: nat)
    requires |p| <= n && forall i :: 0 <= i < |p| ==> g.HasEdge(p[i])
    ensures p in EdgeSeqs(g, n)
  {
    if |p| < n {
      InEdgeSeqs(g, p, n - 1);
    } else if p != [] {
      InEdgeSeqs(g, p[..n - 1], n - 1);
      assert p == p[..n - 1] + [p[n - 1]];
    }
  }

  lemma LooplessIsShort(g: Graph, a: int, p: seq<int>, b: int)
    requires g.Valid() && g.HasNode(a) && IsPath(g, a, p, b)
    ensures p in EdgeSeqs(g, g.NodeCount())
  {
    WalkStaysInside(g, a, p, b);
    var visited := seq(|p| + 1, i requires 0 <= i <= |p| => NodeAt(g, a, p, i));
    DistinctBelow(visited, g.NodeCount());
    InEdgeSeqs(g, p, g.NodeCount());
  }
}
