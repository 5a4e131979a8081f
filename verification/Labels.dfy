/**
 The label-correcting invariant behind the shared shortest-path core: distance
 labels, predecessor edges and a lazy-deletion frontier, as values.
 */
module Labels {
  import opened Costs
  import opened Results
  import opened Graphs

  type Heuristic = int -> Cost

  /** One frontier entry: a node, the cost it was reached at, and its heap key. */
  datatype Item = Item(node: int, g: Cost, priority: Cost)

  /** The heap key: g alone without a heuristic, g + h(node) with one. */
  function Priority(h: Option<Heuristic>, node: int, g: Cost): Cost {
    match h
    case None => g
    case Some(estimate) => Plus(g, estimate(node))
  }

  function Estimate(h: Option<Heuristic>, node: int): Cost {
    match h
    case None => ZERO
    case Some(estimate) => estimate(node)
  }

  /** h never exceeds the weight of any walk to dst. */
  ghost predicate Admissible(g: Graph, w: Weight, h: Option<Heuristic>, dst: int) {
    forall v, p :: IsWalk(g, v, p, dst) ==> Leq(Estimate(h, v), PathCost(g, w, p))
  }

  /** h is finite, zero at dst, and drops along an edge by at most its weight. */
  ghost predicate Consistent(g: Graph, w: Weight, h: Option<Heuristic>, dst: int) {
    && (forall v :: Estimate(h, v).Fin?)
    && Estimate(h, dst) == ZERO
    && (forall e :: g.HasEdge(e) ==>
          Leq(Estimate(h, g.edges[e].from), Plus(w(g.edges[e]), Estimate(h, g.edges[e].to))))
  }

  /** One search: the graph, its weights, the heuristic and the two endpoints. */
  datatype Search = Search(g: Graph, w: Weight, h: Option<Heuristic>, src: int, dst: int) {
    ghost predicate Valid() {
      && g.Valid() && g.HasNode(src) && g.HasNode(dst) && src != dst
      && Admissible(g, w, h, dst)
    }

    ghost function CostTo(p: seq<int>): Cost { PathCost(g, w, p) }
  }

  /** dist and prevEdge restricted to the graph's nodes, and the frontier. */
  datatype State = State(dist: seq<Cost>, prev: seq<int>, queue: set<Item>)

  ghost predicate Open(s: Search, st: State, v: int)
    requires 0 <= v < |st.dist|
  {
    exists item :: item in st.queue && item.node == v && item.g == st.dist[v]
  }

  /** Following `prev` from v reaches the source after exactly k edges. */
  ghost predicate Rooted(s: Search, prev: seq<int>, v: int, k: nat)
    decreases k
  {
    if k == 0 then v == s.src
    else
      && v != s.src && 0 <= v < |prev| && s.g.HasEdge(prev[v])
      && s.g.edges[prev[v]].to == v
      && Rooted(s, prev, s.g.edges[prev[v]].from, k - 1)
  }

  /** A loopless walk from the source that costs exactly v's label and never undercuts a label. */
  ghost predicate Witness(s: Search, dist: seq<Cost>, v: int, p: seq<int>)
    requires 0 <= v < |dist| == s.g.NodeCount()
  {
    && IsPath(s.g, s.src, p, v)
    && s.CostTo(p) == dist[v]
    && forall i :: 0 <= i <= |p| ==> LabelledBelow(s, dist, p, i)
  }

  /** The i-th node of p carries a label no worse than the cost of reaching it along p. */
  ghost predicate LabelledBelow(s: Search, dist: seq<Cost>, p: seq<int>, i: nat)
    requires i <= |p| && |dist| == s.g.NodeCount()
  {
    var x := NodeAt(s.g, s.src, p, i);
    s.g.HasNode(x) && Leq(dist[x], s.CostTo(p[..i]))
  }

  /** Every entry is a node with a finite cost no better than its label. */
  ghost predicate QueueOk(s: Search, st: State)
    requires |st.dist| == s.g.NodeCount()
  {
    forall item :: item in st.queue ==>
      && s.g.HasNode(item.node) && item.g.Fin?
      && Leq(st.dist[item.node], item.g)
      && item.priority == Priority(s.h, item.node, item.g)
  }

  /** The predecessor edge of a reached node justifies its label. */
  ghost predicate PrevOk(s: Search, st: State)
    requires |st.dist| == |st.prev| == s.g.NodeCount()
  {
    forall v :: 0 <= v < |st.dist| && v != s.src && st.dist[v].Fin? ==>
      && s.g.HasEdge(st.prev[v]) && s.g.edges[st.prev[v]].to == v
      && 0 <= s.g.edges[st.prev[v]].from < |st.dist|
      && Leq(Plus(st.dist[s.g.edges[st.prev[v]].from], s.w(s.g.edges[st.prev[v]])), st.dist[v])
  }

  ghost predicate AllRooted(s: Search, st: State)
    requires |st.dist| == s.g.NodeCount()
  {
    forall v :: 0 <= v < |st.dist| && st.dist[v].Fin? ==> exists k: nat :: Rooted(s, st.prev, v, k)
  }

  ghost predicate AllWitnessed(s: Search, st: State)
    requires |st.dist| == s.g.NodeCount()
  {
    forall v :: 0 <= v < |st.dist| && st.dist[v].Fin? ==> exists p :: Witness(s, st.dist, v, p)
  }

  /** Edges out of reached nodes that have left the frontier are relaxed, but for `pending`. */
  ghost predicate Settled(s: Search, st: State, pending: set<int>)
    requires s.g.Valid() && |st.dist| == s.g.NodeCount()
  {
    forall e :: s.g.HasEdge(e) && e !in pending ==>
      var u := s.g.edges[e].from;
      st.dist[u].Fin? && !Open(s, st, u) ==>
        Leq(st.dist[s.g.edges[e].to], Plus(st.dist[u], s.w(s.g.edges[e])))
  }

  ghost predicate Inv(s: Search, st: State, pending: set<int>) {
    && s.g.Valid() && s.g.HasNode(s.src) && s.g.HasNode(s.dst)
    && |st.dist| == |st.prev| == s.g.NodeCount()
    && st.dist[s.src] == ZERO
    && QueueOk(s, st)
    && PrevOk(s, st)
    && AllRooted(s, st)
    && AllWitnessed(s, st)
    && Settled(s, st, pending)
  }

  lemma InvInitially(s: Search, st: State)
    requires s.g.Valid() && s.g.HasNode(s.src) && s.g.HasNode(s.dst)
    requires |st.dist| == |st.prev| == s.g.NodeCount()
    requires forall v :: 0 <= v < |st.dist| ==> st.dist[v] == if v == s.src then ZERO else Inf
    requires st.queue == {Item(s.src, ZERO, Priority(s.h, s.src, ZERO))}
    ensures Inv(s, st, {}) && TraceOk(s, st, [])
  {
    assert Rooted(s, st.prev, s.src, 0);
    assert Witness(s, st.dist, s.src, []);
    var item := Item(s.src, ZERO, Priority(s.h, s.src, ZERO));
    assert item in st.queue;
    assert Open(s, st, s.src);
  }

  // ---- one relaxation

  /** The state after edge e improves its head's label. */
  ghost function Improve(s: Search, st: State, e: int): State
    requires s.g.Valid() && s.g.HasEdge(e) && |st.dist| == |st.prev| == s.g.NodeCount()
  {
    var edge := s.g.edges[e];
    var relaxed := Plus(st.dist[edge.from], s.w(edge));
    State(st.dist[edge.to := relaxed], st.prev[edge.to := e],
          st.queue + {Item(edge.to, relaxed, Priority(s.h, edge.to, relaxed))})
  }

  ghost predicate Improves(s: Search, st: State, e: int)
    requires s.g.Valid() && |st.dist| == s.g.NodeCount()
  {
    s.g.HasEdge(e) && Less(Plus(st.dist[s.g.edges[e].from], s.w(s.g.edges[e])), st.dist[s.g.edges[e].to])
  }

  /** A node labelled below v does not reach the source through v, so re-parenting v keeps it rooted. */
  lemma {:induction false} RootedBelow(s: Search, st: State, v: int, e: int, x: int, k: nat)
    requires |st.dist| == |st.prev| == s.g.NodeCount() && 0 <= v < |st.dist| && PrevOk(s, st)
    requires Rooted(s, st.prev, x, k) && 0 <= x < |st.dist| && Less(st.dist[x], st.dist[v])
    ensures Rooted(s, st.prev[v := e], x, k)
    decreases k
  {
    if k > 0 {
      RootedBelow(s, st, v, e, s.g.edges[st.prev[x]].from, k - 1);
    }
  }

  /** Once its new parent is rooted, re-parenting v onto e keeps every rooted node rooted. */
  lemma {:induction false} Reroot(s: Search, prev: seq<int>, e: int, ku: nat, x: int, k: nat) returns (k': nat)
    requires s.g.HasEdge(e) && s.g.edges[e].to != s.src && 0 <= s.g.edges[e].to < |prev|
    requires Rooted(s, prev[s.g.edges[e].to := e], s.g.edges[e].from, ku)
    requires Rooted(s, prev, x, k)
    ensures Rooted(s, prev[s.g.edges[e].to := e], x, k')
    decreases k
  {
    if x == s.g.edges[e].to {
      k' := ku + 1;
    } else if k == 0 {
      k' := 0;
    } else {
      var k'' := Reroot(s, prev, e, ku, s.g.edges[prev[x]].from, k - 1);
      k' := k'' + 1;
    }
  }

  /** The witness of e's tail never visits e's head: the head's label would already be as good. */
  lemma WitnessAvoidsHead(s: Search, st: State, e: int, p: seq<int>, i: nat)
    requires s.g.Valid() && |st.dist| == |st.prev| == s.g.NodeCount() && Improves(s, st, e)
    requires Witness(s, st.dist, s.g.edges[e].from, p) && i <= |p|
    ensures NodeAt(s.g, s.src, p, i) != s.g.edges[e].to
    ensures Less(Plus(st.dist[s.g.edges[e].from], s.w(s.g.edges[e])), st.dist[s.g.edges[e].to])
  {
    CostOfSplit(s.g, s.w, p, i);
    assert LabelledBelow(s, st.dist, p, i);
  }

  /** The witness of the tail, extended by e, witnesses the head's new label. */
  lemma WitnessForHead(s: Search, st: State, e: int, p: seq<int>)
    requires s.g.Valid() && |st.dist| == |st.prev| == s.g.NodeCount() && Improves(s, st, e)
    requires Witness(s, st.dist, s.g.edges[e].from, p)
    ensures Witness(s, Improve(s, st, e).dist, s.g.edges[e].to, p + [e])
  {
    var q := p + [e];
    forall i | 0 <= i <= |p|
      ensures NodeAt(s.g, s.src, p, i) != s.g.edges[e].to
    {
      WitnessAvoidsHead(s, st, e, p, i);
    }
    PathSnoc(s.g, s.src, p, e);
    CostOfSnoc(s.g, s.w, p, e);
    forall i | 0 <= i <= |q|
      ensures LabelledBelow(s, Improve(s, st, e).dist, q, i)
    {
      if i == |q| {
        assert q[..i] == q;
      } else {
        assert q[..i] == p[..i];
        assert LabelledBelow(s, st.dist, p, i);
      }
    }
  }

  lemma WitnessKept(s: Search, st: State, e: int, x: int, p: seq<int>)
    requires s.g.Valid() && |st.dist| == |st.prev| == s.g.NodeCount() && Improves(s, st, e)
    requires 0 <= x < |st.dist| && x != s.g.edges[e].to
    requires Witness(s, st.dist, x, p)
    ensures Witness(s, Improve(s, st, e).dist, x, p)
  {
    forall i | 0 <= i <= |p|
      ensures LabelledBelow(s, Improve(s, st, e).dist, p, i)
    {
      assert LabelledBelow(s, st.dist, p, i);
    }
  }

  lemma ImproveKeepsRooted(s: Search, st: State, e: int)
    requires s.g.Valid() && s.g.HasNode(s.src) && |st.dist| == |st.prev| == s.g.NodeCount()
    requires st.dist[s.src] == ZERO && Improves(s, st, e) && PrevOk(s, st) && AllRooted(s, st)
    ensures AllRooted(s, Improve(s, st, e))
  {
    var u, v := s.g.edges[e].from, s.g.edges[e].to;
    var ku: nat :| Rooted(s, st.prev, u, ku);
    RootedBelow(s, st, v, e, u, ku);
    forall x | 0 <= x < |st.dist| && Improve(s, st, e).dist[x].Fin?
      ensures exists k: nat :: Rooted(s, Improve(s, st, e).prev, x, k)
    {
      if x == v {
        assert Rooted(s, Improve(s, st, e).prev, x, ku + 1);
      } else {
        var k: nat :| Rooted(s, st.prev, x, k);
        var k' := Reroot(s, st.prev, e, ku, x, k);
      }
    }
  }

  lemma ImproveKeepsWitnessed(s: Search, st: State, e: int)
    requires s.g.Valid() && |st.dist| == |st.prev| == s.g.NodeCount()
    requires Improves(s, st, e) && AllWitnessed(s, st)
    ensures AllWitnessed(s, Improve(s, st, e))
  {
    var u, v := s.g.edges[e].from, s.g.edges[e].to;
    forall x | 0 <= x < |st.dist| && Improve(s, st, e).dist[x].Fin?
      ensures exists p :: Witness(s, Improve(s, st, e).dist, x, p)
    {
      if x == v {
        var p :| Witness(s, st.dist, u, p);
        WitnessForHead(s, st, e, p);
      } else {
        var p :| Witness(s, st.dist, x, p);
        WitnessKept(s, st, e, x, p);
      }
    }
  }

  lemma ImproveKeepsSettled(s: Search, st: State, e: int, pending: set<int>)
    requires s.g.Valid() && |st.dist| == |st.prev| == s.g.NodeCount()
    requires Improves(s, st, e) && Settled(s, st, pending)
    ensures Settled(s, Improve(s, st, e), pending)
    ensures Open(s, Improve(s, st, e), s.g.edges[e].to)
  {
    var st' := Improve(s, st, e);
    var v := s.g.edges[e].to;
    var pushed := Item(v, st'.dist[v], Priority(s.h, v, st'.dist[v]));
    assert pushed in st'.queue;
    assert Open(s, st', v);
    forall x | 0 <= x < |st.dist| && x != v && Open(s, st, x)
      ensures Open(s, st', x)
    {
      var item :| item in st.queue && item.node == x && item.g == st.dist[x];
      assert item in st'.queue;
    }
  }

  lemma ImproveKeepsLabels(s: Search, st: State, e: int)
    requires s.g.Valid() && s.g.HasNode(s.src) && |st.dist| == |st.prev| == s.g.NodeCount()
    requires st.dist[s.src] == ZERO && Improves(s, st, e) && QueueOk(s, st) && PrevOk(s, st)
    ensures QueueOk(s, Improve(s, st, e)) && PrevOk(s, Improve(s, st, e))
    ensures Improve(s, st, e).dist[s.src] == ZERO
  {
  }

  lemma ImproveKeepsInv(s: Search, st: State, e: int, pending: set<int>)
    requires Inv(s, st, pending) && Improves(s, st, e)
    ensures Inv(s, Improve(s, st, e), pending)
  {
    ImproveKeepsLabels(s, st, e);
    ImproveKeepsRooted(s, st, e);
    ImproveKeepsWitnessed(s, st, e);
    ImproveKeepsSettled(s, st, e, pending);
  }

  /** The pushed entry is new: its cost is below every entry the head already has. */
  lemma PushedIsNew(s: Search, st: State, e: int, item: Item)
    requires s.g.Valid() && |st.dist| == s.g.NodeCount() && QueueOk(s, st) && Improves(s, st, e)
    requires item.node == s.g.edges[e].to
    requires item.g == Plus(st.dist[s.g.edges[e].from], s.w(s.g.edges[e]))
    ensures item !in st.queue
  {
  }

  // ---- popping the frontier

  ghost function Pop(st: State, item: Item): State {
    st.(queue := st.queue - {item})
  }

  /** Popping an entry only ever takes its own node off the frontier, and only if it is fresh. */
  lemma PopKeepsOpen(s: Search, st: State, item: Item, x: int)
    requires 0 <= x < |st.dist| && (x != item.node || item.g != st.dist[x])
    ensures Open(s, st, x) <==> Open(s, Pop(st, item), x)
  {
    if Open(s, st, x) {
      var other :| other in st.queue && other.node == x && other.g == st.dist[x];
      assert other in Pop(st, item).queue;
    }
  }

  lemma StaleIsClosed(s: Search, st: State, item: Item)
    requires Inv(s, st, {}) && item in st.queue && 0 <= item.node < |st.dist| && item.g != st.dist[item.node]
    ensures forall x :: 0 <= x < |st.dist| ==> (Open(s, st, x) <==> Open(s, Pop(st, item), x))
  {
    forall x | 0 <= x < |st.dist|
      ensures Open(s, st, x) <==> Open(s, Pop(st, item), x)
    {
      PopKeepsOpen(s, st, item, x);
    }
  }

  lemma StaleKeepsInv(s: Search, st: State, item: Item)
    requires Inv(s, st, {}) && item in st.queue && 0 <= item.node < |st.dist| && item.g != st.dist[item.node]
    ensures Inv(s, Pop(st, item), {})
  {
    StaleIsClosed(s, st, item);
  }

  /** A stale entry, worse than its node's label, can be dropped. */
  lemma PopStale(s: Search, st: State, item: Item, trace: seq<Expansion>)
    requires Inv(s, st, {}) && item in st.queue && 0 <= item.node < |st.dist|
    requires item.g != st.dist[item.node] && TraceOk(s, st, trace)
    ensures Inv(s, Pop(st, item), {}) && TraceOk(s, Pop(st, item), trace)
  {
    StaleIsClosed(s, st, item);
    StaleKeepsInv(s, st, item);
  }

  /** A fresh entry leaves the frontier owing the relaxation of its node's out-edges. */
  lemma PopFresh(s: Search, st: State, item: Item, pending: set<int>)
    requires Inv(s, st, {}) && item in st.queue
    requires forall e :: s.g.HasEdge(e) && s.g.edges[e].from == item.node ==> e in pending
    ensures Inv(s, Pop(st, item), pending)
    ensures forall x :: 0 <= x < |st.dist| && x != item.node ==>
      (Open(s, st, x) <==> Open(s, Pop(st, item), x))
    ensures item.g == st.dist[item.node] ==> !Open(s, Pop(st, item), item.node)
  {
    forall x | 0 <= x < |st.dist| && x != item.node
      ensures Open(s, st, x) <==> Open(s, Pop(st, item), x)
    {
      PopKeepsOpen(s, st, item, x);
    }
  }

  lemma RelaxedOne(s: Search, st: State, pending: set<int>, e: int)
    requires Inv(s, st, pending) && s.g.HasEdge(e) && !Improves(s, st, e)
    ensures Inv(s, st, pending - {e})
  {
  }

  // ---- optimality

  /** A node off the frontier passes its bound on to the next node of the walk. */
  lemma LabelAlongEdge(s: Search, st: State, p: seq<int>, t: int, j: nat)
    requires Inv(s, st, {}) && IsWalk(s.g, s.src, p, t) && j < |p| && s.CostTo(p).Fin?
    requires s.g.HasNode(NodeAt(s.g, s.src, p, j)) && !Open(s, st, NodeAt(s.g, s.src, p, j))
    requires Leq(st.dist[NodeAt(s.g, s.src, p, j)], s.CostTo(p[..j]))
    ensures s.g.HasNode(NodeAt(s.g, s.src, p, j + 1))
    ensures Leq(st.dist[NodeAt(s.g, s.src, p, j + 1)], s.CostTo(p[..j + 1]))
  {
    CostOfSplit(s.g, s.w, p, j);
    CostOfSnoc(s.g, s.w, p[..j], p[j]);
    assert p[..j] + [p[j]] == p[..j + 1];
  }

  /** Along any walk the first node still on the frontier is labelled no worse than the walk. */
  lemma {:induction false} FrontierOnWalk(s: Search, st: State, p: seq<int>, t: int, j: nat) returns (i: nat)
    requires Inv(s, st, {}) && IsWalk(s.g, s.src, p, t) && j <= |p|
    requires s.g.HasNode(NodeAt(s.g, s.src, p, j))
    requires s.CostTo(p).Fin? && Leq(st.dist[NodeAt(s.g, s.src, p, j)], s.CostTo(p[..j]))
    ensures i <= |p| && s.g.HasNode(NodeAt(s.g, s.src, p, i))
    ensures Leq(st.dist[NodeAt(s.g, s.src, p, i)], s.CostTo(p[..i]))
    ensures Open(s, st, NodeAt(s.g, s.src, p, i)) || i == |p|
    decreases |p| - j
  {
    var x := NodeAt(s.g, s.src, p, j);
    if j == |p| || Open(s, st, x) {
      i := j;
    } else {
      LabelAlongEdge(s, st, p, t, j);
      i := FrontierOnWalk(s, st, p, t, j + 1);
    }
  }

  ghost predicate Best(s: Search, dist: seq<Cost>, t: int)
    requires 0 <= t < |dist|
  {
    forall p :: IsWalk(s.g, s.src, p, t) ==> Leq(dist[t], s.CostTo(p))
  }

  /** item is a frontier entry of least priority. */
  ghost predicate Least(queue: set<Item>, item: Item) {
    item in queue && forall other :: other in queue ==> Leq(item.priority, other.priority)
  }

  /** Once the frontier is empty every label is the cost of a best walk. */
  lemma DrainedIsBest(s: Search, st: State, t: int)
    requires Inv(s, st, {}) && st.queue == {} && 0 <= t < |st.dist|
    ensures Best(s, st.dist, t)
  {
    forall p | IsWalk(s.g, s.src, p, t)
      ensures Leq(st.dist[t], s.CostTo(p))
    {
      if s.CostTo(p).Fin? {
        var i := FrontierOnWalk(s, st, p, t, 0);
        assert p[..|p|] == p;
      }
    }
  }

  /** The least frontier entry's key is a lower bound on every walk to dst that still has an open node. */
  lemma KeyBelowWalk(s: Search, st: State, item: Item, p: seq<int>)
    requires Inv(s, st, {}) && Least(st.queue, item) && Admissible(s.g, s.w, s.h, s.dst)
    requires IsWalk(s.g, s.src, p, s.dst)
    requires st.dist[s.dst].Fin? ==> Open(s, st, s.dst)
    ensures Leq(item.priority, s.CostTo(p))
  {
    if s.CostTo(p).Fin? {
      var i := FrontierOnWalk(s, st, p, s.dst, 0);
      var x := NodeAt(s.g, s.src, p, i);
      WalkSplit(s.g, s.src, p, s.dst, i);
      CostOfSplit(s.g, s.w, p, i);
      assert p[..|p|] == p;
      var other :| other in st.queue && other.node == x && other.g == st.dist[x];
      assert Leq(Estimate(s.h, x), PathCost(s.g, s.w, p[i..]));
    }
  }

  /** When the least entry is a fresh one for dst, dst's label is optimal. */
  lemma PoppedTargetIsBest(s: Search, st: State, item: Item)
    requires Inv(s, st, {}) && Least(st.queue, item) && Admissible(s.g, s.w, s.h, s.dst)
    requires item.node == s.dst && item.g == st.dist[s.dst]
    ensures Best(s, st.dist, s.dst)
  {
    assert Open(s, st, s.dst);
    assert item.priority == item.g by {
      assert IsWalk(s.g, s.dst, [], s.dst);
      assert Leq(Estimate(s.h, s.dst), PathCost(s.g, s.w, []));
    }
    forall p | IsWalk(s.g, s.src, p, s.dst)
      ensures Leq(st.dist[s.dst], s.CostTo(p))
    {
      KeyBelowWalk(s, st, item, p);
    }
  }

  // ---- how much work a search does

  /** An expansion: a node whose out-edges were relaxed, at the cost it then had. */
  datatype Expansion = Expansion(node: int, g: Cost)

  ghost predicate Expanded(trace: seq<Expansion>, v: int) {
    exists i :: 0 <= i < |trace| && trace[i].node == v
  }

  /** Every expansion's key g + h is at most the cost of every walk to dst. */
  ghost predicate WithinOptimum(s: Search, trace: seq<Expansion>) {
    forall i, p :: 0 <= i < |trace| && IsWalk(s.g, s.src, p, s.dst) ==>
      Leq(Plus(trace[i].g, Estimate(s.h, trace[i].node)), s.CostTo(p))
  }

  ghost predicate NoRepeat(trace: seq<Expansion>) {
    forall i, j :: 0 <= i < j < |trace| ==> trace[i].node != trace[j].node
  }

  /** The expanded node had really been reached, by a loopless walk of just that finite cost. */
  ghost predicate Genuine(s: Search, x: Expansion) {
    x.g.Fin? && exists p :: IsPath(s.g, s.src, p, x.node) && s.CostTo(p) == x.g
  }

  /** Every predecessor edge was found by expanding its tail, and nothing was expanded that was not reached. */
  ghost predicate Anchored(s: Search, dist: seq<Cost>, prev: seq<int>, trace: seq<Expansion>)
    requires |dist| == |prev|
  {
    && (forall i :: 0 <= i < |trace| ==> Genuine(s, trace[i]))
    && forall v :: 0 <= v < |dist| && v != s.src && dist[v].Fin? ==>
         s.g.HasEdge(prev[v]) && Expanded(trace, s.g.edges[prev[v]].from)
  }

  /** Every node some walk of finite cost reaches has been expanded. */
  ghost predicate AllExpanded(s: Search, trace: seq<Expansion>) {
    forall v, p :: IsWalk(s.g, s.src, p, v) && s.CostTo(p).Fin? ==> Expanded(trace, v)
  }

  ghost predicate PathExpanded(s: Search, path: seq<int>, trace: seq<Expansion>) {
    forall i :: 0 <= i < |path| ==> Expanded(trace, NodeAt(s.g, s.src, path, i))
  }

  /**
   What the list of expansions must hold: nodes really reached only; of a failed search every node
   that can be reached, of a successful one every node of the path but the last.
   */
  ghost predicate Accounts(s: Search, found: bool, path: seq<int>, trace: seq<Expansion>) {
    && (forall i :: 0 <= i < |trace| ==> Genuine(s, trace[i]))
    && if found then PathExpanded(s, path, trace)
       else s.g.HasNode(s.src) && s.g.HasNode(s.dst) ==> AllExpanded(s, trace)
  }

  ghost predicate TraceOk(s: Search, st: State, trace: seq<Expansion>)
    requires |st.dist| == |st.prev| == s.g.NodeCount()
  {
    && WithinOptimum(s, trace)
    && Anchored(s, st.dist, st.prev, trace)
    && !Expanded(trace, s.dst)
    && (forall i :: 0 <= i < |trace| ==> s.g.HasNode(trace[i].node))
    && (forall v :: 0 <= v < |st.dist| && st.dist[v].Fin? && !Open(s, st, v) ==> Expanded(trace, v))
    && (Consistent(s.g, s.w, s.h, s.dst) ==>
          && NoRepeat(trace)
          && forall v :: 0 <= v < |st.dist| && Expanded(trace, v) ==>
               Best(s, st.dist, v) && !Open(s, st, v))
  }

  /** Under a consistent heuristic the estimate drops along a walk by at most its cost. */
  lemma {:induction false} ConsistentAlongWalk(s: Search, a: int, p: seq<int>, b: int)
    requires Consistent(s.g, s.w, s.h, s.dst) && IsWalk(s.g, a, p, b)
    ensures Leq(Estimate(s.h, a), Plus(PathCost(s.g, s.w, p), Estimate(s.h, b)))
  {
    if p != [] {
      var q := p[..|p| - 1];
      WalkSplit(s.g, a, p, b, |q|);
      ConsistentAlongWalk(s, a, q, NodeAt(s.g, a, p, |q|));
    }
  }

  lemma ConsistentIsAdmissible(s: Search)
    requires Consistent(s.g, s.w, s.h, s.dst)
    ensures Admissible(s.g, s.w, s.h, s.dst)
  {
    forall v, p | IsWalk(s.g, v, p, s.dst)
      ensures Leq(Estimate(s.h, v), PathCost(s.g, s.w, p))
    {
      ConsistentAlongWalk(s, v, p, s.dst);
    }
  }

  /** Under a consistent heuristic a freshly popped node's label is already optimal. */
  lemma PoppedIsBest(s: Search, st: State, item: Item)
    requires Inv(s, st, {}) && Least(st.queue, item) && Consistent(s.g, s.w, s.h, s.dst)
    requires item.g == st.dist[item.node]
    ensures Best(s, st.dist, item.node)
  {
    var v := item.node;
    forall p | IsWalk(s.g, s.src, p, v)
      ensures Leq(st.dist[v], s.CostTo(p))
    {
      if s.CostTo(p).Fin? {
        var i := FrontierOnWalk(s, st, p, v, 0);
        var x := NodeAt(s.g, s.src, p, i);
        WalkSplit(s.g, s.src, p, v, i);
        CostOfSplit(s.g, s.w, p, i);
        assert p[..|p|] == p;
        if i < |p| {
          var other :| other in st.queue && other.node == x && other.g == st.dist[x];
          ConsistentAlongWalk(s, x, p[i..], v);
        }
      }
    }
  }

  /** No improvement reaches a node whose label is already optimal. */
  lemma BestIsNotImproved(s: Search, st: State, pending: set<int>, e: int)
    requires Inv(s, st, pending) && Improves(s, st, e)
    ensures !Best(s, st.dist, s.g.edges[e].to)
  {
    var p :| Witness(s, st.dist, s.g.edges[e].from, p);
    CostOfSnoc(s.g, s.w, p, e);
    WalkConcat(s.g, s.src, p, s.g.edges[e].from, [e], s.g.edges[e].to);
  }

  lemma ImproveKeepsAnchor(s: Search, st: State, e: int, trace: seq<Expansion>)
    requires s.g.Valid() && |st.dist| == |st.prev| == s.g.NodeCount() && Improves(s, st, e)
    requires Anchored(s, st.dist, st.prev, trace) && Expanded(trace, s.g.edges[e].from)
    ensures Anchored(s, Improve(s, st, e).dist, Improve(s, st, e).prev, trace)
  {
  }

  lemma ImproveKeepsOpen(s: Search, st: State, e: int, x: int)
    requires s.g.Valid() && |st.dist| == |st.prev| == s.g.NodeCount() && Improves(s, st, e)
    requires 0 <= x < |st.dist| && x != s.g.edges[e].to
    ensures Open(s, Improve(s, st, e), x) <==> Open(s, st, x)
  {
    if Open(s, st, x) {
      var item :| item in st.queue && item.node == x && item.g == st.dist[x];
      assert item in Improve(s, st, e).queue;
    }
  }

  lemma ImproveKeepsBest(s: Search, st: State, pending: set<int>, e: int, x: int)
    requires Inv(s, st, pending) && Improves(s, st, e) && 0 <= x < |st.dist| && Best(s, st.dist, x)
    ensures x != s.g.edges[e].to && Best(s, Improve(s, st, e).dist, x)
  {
    BestIsNotImproved(s, st, pending, e);
  }

  lemma ImproveKeepsTrace(s: Search, st: State, pending: set<int>, e: int, trace: seq<Expansion>)
    requires Inv(s, st, pending) && Improves(s, st, e) && TraceOk(s, st, trace)
    requires Expanded(trace, s.g.edges[e].from)
    ensures TraceOk(s, Improve(s, st, e), trace)
  {
    ImproveKeepsSettled(s, st, e, pending);
    ImproveKeepsAnchor(s, st, e, trace);
    forall x | 0 <= x < |st.dist| && x != s.g.edges[e].to
      ensures Open(s, Improve(s, st, e), x) <==> Open(s, st, x)
    {
      ImproveKeepsOpen(s, st, e, x);
    }
    forall x | 0 <= x < |st.dist| && Best(s, st.dist, x)
      ensures x != s.g.edges[e].to && Best(s, Improve(s, st, e).dist, x)
    {
      ImproveKeepsBest(s, st, pending, e, x);
    }
  }

  lemma ExpandKeepsBound(s: Search, st: State, item: Item, trace: seq<Expansion>)
    requires Inv(s, st, {}) && Least(st.queue, item) && WithinOptimum(s, trace)
    requires Admissible(s.g, s.w, s.h, s.dst) && (st.dist[s.dst].Fin? ==> Open(s, st, s.dst))
    ensures WithinOptimum(s, trace + [Expansion(item.node, item.g)])
  {
    forall p | IsWalk(s.g, s.src, p, s.dst)
      ensures Leq(Plus(item.g, Estimate(s.h, item.node)), s.CostTo(p))
    {
      KeyBelowWalk(s, st, item, p);
    }
  }

  lemma ExpandKeepsAnchor(s: Search, st: State, item: Item, trace: seq<Expansion>)
    requires Inv(s, st, {}) && Anchored(s, st.dist, st.prev, trace) && item in st.queue
    requires s.g.HasNode(item.node) && item.g == st.dist[item.node]
    ensures Anchored(s, st.dist, st.prev, trace + [Expansion(item.node, item.g)])
  {
    var last := Expansion(item.node, item.g);
    var p :| Witness(s, st.dist, item.node, p);
    assert Genuine(s, last);
    ExpandedSnoc(trace, last);
  }

  /** An empty frontier has expanded everything that can be reached. */
  lemma DrainedHasExpandedAll(s: Search, st: State, trace: seq<Expansion>)
    requires Inv(s, st, {}) && st.queue == {} && TraceOk(s, st, trace)
    ensures AllExpanded(s, trace)
  {
    forall v, p | IsWalk(s.g, s.src, p, v) && s.CostTo(p).Fin?
      ensures Expanded(trace, v)
    {
      WalkStaysInside(s.g, s.src, p, v);
      assert s.g.HasNode(NodeAt(s.g, s.src, p, |p|));
      DrainedIsBest(s, st, v);
    }
  }

  lemma ExpandKeepsTrace(s: Search, st: State, item: Item, trace: seq<Expansion>)
    requires Inv(s, st, {}) && TraceOk(s, st, trace) && Least(st.queue, item)
    requires Admissible(s.g, s.w, s.h, s.dst) && s.g.HasNode(item.node)
    requires item.g == st.dist[item.node] && item.node != s.dst
    ensures TraceOk(s, Pop(st, item), trace + [Expansion(item.node, item.g)])
  {
    var last := Expansion(item.node, item.g);
    ExpandKeepsBound(s, st, item, trace);
    ExpandKeepsAnchor(s, st, item, trace);
    PopFresh(s, st, item, Below(|s.g.edges|));
    ExpandedSnoc(trace, last);
    if Consistent(s.g, s.w, s.h, s.dst) {
      ExpandKeepsOnce(s, st, item, trace);
    }
  }

  /** Under a consistent heuristic the node is expanded for the first time, at its best cost. */
  lemma ExpandKeepsOnce(s: Search, st: State, item: Item, trace: seq<Expansion>)
    requires Inv(s, st, {}) && TraceOk(s, st, trace) && Least(st.queue, item) && Consistent(s.g, s.w, s.h, s.dst)
    requires s.g.HasNode(item.node) && item.g == st.dist[item.node]
    ensures Best(s, st.dist, item.node) && NoRepeat(trace + [Expansion(item.node, item.g)])
  {
    assert Open(s, st, item.node);
    PoppedIsBest(s, st, item);
    assert forall i :: 0 <= i < |trace| ==> Expanded(trace, trace[i].node);
  }

  lemma ExpandedSnoc(trace: seq<Expansion>, last: Expansion)
    ensures forall x :: Expanded(trace + [last], x) <==> x == last.node || Expanded(trace, x)
  {
    var trace' := trace + [last];
    assert trace'[|trace|] == last;
    forall x | Expanded(trace, x)
      ensures Expanded(trace', x)
    {
      var i :| 0 <= i < |trace| && trace[i].node == x;
      assert trace'[i].node == x;
    }
  }
}
