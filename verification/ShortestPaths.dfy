/** The shortest-path core shared by Dijkstra, A* and Yen's search, over reusable label arrays. */
module ShortestPaths {
  import opened Costs
  import opened Results
  import opened Graphs
  import opened Labels

  /** Reusable label arrays; one search at a time owns them, and no search trusts their old contents. */
  class Scratch {
    var dist: array<Cost>
    var prevEdge: array<int>

    ghost predicate Valid()
      reads this
    {
      dist.Length == prevEdge.Length
    }

    constructor (nodeCount: int)
      ensures Valid() && fresh(dist) && fresh(prevEdge)
      ensures dist.Length == if nodeCount < 0 then 0 else nodeCount
    {
      var size := if nodeCount < 0 then 0 else nodeCount;
      dist := new Cost[size](_ => ZERO);
      prevEdge := new int[size](_ => 0);
    }

    /** Arrays with at least `count` slots: the old ones unless they are too small. */
    method Reset(count: nat) returns (d: array<Cost>, p: array<int>)
      requires Valid()
      modifies this
      ensures Valid() && d == dist && p == prevEdge
      ensures d.Length == if count > old(dist.Length) then count else old(dist.Length)
      ensures if count > old(dist.Length) then fresh(d) && fresh(p)
              else d == old(dist) && p == old(prevEdge)
    {
      if count > dist.Length {
        dist := new Cost[count](_ => ZERO);
        prevEdge := new int[count](_ => 0);
      }
      d, p := dist, prevEdge;
    }
  }

  // ---- termination: labels only ever take the costs of loopless walks

  ghost function SimpleCosts(s: Search): set<Cost> {
    set p | p in EdgeSeqs(s.g, s.g.NodeCount()) :: s.CostTo(p)
  }

  /** The (node, cost) pairs a search can still improve to. */
  ghost function Slack(s: Search, dist: seq<Cost>): set<(int, Cost)>
    requires |dist| == s.g.NodeCount()
  {
    set v, c | v in Below(|dist|) && c in SimpleCosts(s) && Less(c, dist[v]) :: (v, c)
  }

  lemma ImproveUsesSlack(s: Search, st: State, e: int, pending: set<int>)
    requires Inv(s, st, pending) && Improves(s, st, e)
    ensures Slack(s, Improve(s, st, e).dist) < Slack(s, st.dist)
  {
    var v, st' := s.g.edges[e].to, Improve(s, st, e);
    assert LooplessCost(s, st'.dist[v]) by {
      var p :| Witness(s, st.dist, s.g.edges[e].from, p);
      WitnessForHead(s, st, e, p);
    }
    LooplessCostIsSimple(s, st'.dist[v]);
    var used := (v, st'.dist[v]);
    assert used in Slack(s, st.dist) && used !in Slack(s, st'.dist);
  }

  ghost predicate LooplessCost(s: Search, c: Cost) {
    exists p, v :: IsPath(s.g, s.src, p, v) && s.CostTo(p) == c
  }

  lemma LooplessCostIsSimple(s: Search, c: Cost)
    requires s.g.Valid() && s.g.HasNode(s.src) && LooplessCost(s, c)
    ensures c in SimpleCosts(s)
  {
    var p, v :| IsPath(s.g, s.src, p, v) && s.CostTo(p) == c;
    LooplessIsShort(s.g, s.src, p, v);
  }

  /** The state after looking at edge e: improved if e improves its head. */
  ghost function Relaxed(s: Search, st: State, e: int): State
    requires s.g.Valid() && s.g.HasEdge(e) && |st.dist| == |st.prev| == s.g.NodeCount()
  {
    if Improves(s, st, e) then Improve(s, st, e) else st
  }

  lemma RelaxKeepsInv(s: Search, st: State, e: int, pending: set<int>, trace: seq<Expansion>)
    requires Inv(s, st, pending) && TraceOk(s, st, trace) && s.g.HasEdge(e)
    requires Expanded(trace, s.g.edges[e].from)
    ensures Inv(s, Relaxed(s, st, e), pending - {e}) && TraceOk(s, Relaxed(s, st, e), trace)
    ensures Relaxed(s, st, e).dist[s.g.edges[e].from] == st.dist[s.g.edges[e].from]
    ensures Relaxed(s, st, e) == st || Slack(s, Relaxed(s, st, e).dist) < Slack(s, st.dist)
  {
    if Improves(s, st, e) {
      ImproveUsesSlack(s, st, e, pending);
      ImproveKeepsInv(s, st, e, pending);
      ImproveKeepsTrace(s, st, pending, e, trace);
      RelaxedOne(s, Improve(s, st, e), pending, e);
      return;
    }
    RelaxedOne(s, st, pending, e);
  }

  // ---- the frontier

  lemma {:induction false} LeastExists(queue: set<Item>)
    requires queue != {}
    ensures exists item :: Least(queue, item)
  {
    var some :| some in queue;
    if queue == {some} {
      assert Least(queue, some);
    } else {
      LeastExists(queue - {some});
      var item :| Least(queue - {some}, item);
      assert Least(queue, if Leq(item.priority, some.priority) then item else some);
    }
  }

  /** Any entry of least priority: all the search asks of its heap. */
  method PopMin(queue: set<Item>) returns (item: Item)
    requires queue != {}
    ensures Least(queue, item)
  {
    LeastExists(queue);
    item :| item in queue && forall other :: other in queue ==> Leq(item.priority, other.priority);
  }

  // ---- the predecessor walk

  lemma {:induction false} RootedOnce(s: Search, prev: seq<int>, v: int, i: nat, j: nat)
    requires Rooted(s, prev, v, i) && Rooted(s, prev, v, j)
    ensures i == j
    decreases i
  {
    if i > 0 && j > 0 {
      RootedOnce(s, prev, s.g.edges[prev[v]].from, i - 1, j - 1);
    }
  }

  /** Every node of p is rooted, the i-th of them k + i edges from the source. */
  ghost predicate Backtracked(s: Search, prev: seq<int>, a: int, p: seq<int>, k: nat) {
    forall i :: 0 <= i <= |p| ==> Rooted(s, prev, NodeAt(s.g, a, p, i), k + i)
  }

  lemma BacktrackedIsLoopless(s: Search, prev: seq<int>, a: int, p: seq<int>, k: nat)
    requires Backtracked(s, prev, a, p, k)
    ensures Loopless(s.g, a, p)
  {
    forall i, j | 0 <= i < j <= |p|
      ensures NodeAt(s.g, a, p, i) != NodeAt(s.g, a, p, j)
    {
      assert Rooted(s, prev, NodeAt(s.g, a, p, i), k + i);
      assert Rooted(s, prev, NodeAt(s.g, a, p, j), k + j);
      if NodeAt(s.g, a, p, i) == NodeAt(s.g, a, p, j) {
        RootedOnce(s, prev, NodeAt(s.g, a, p, i), k + i, k + j);
      }
    }
  }

  lemma BacktrackStep(s: Search, prev: seq<int>, a: int, p: seq<int>, k: nat)
    requires Backtracked(s, prev, a, p, k) && a != s.src
    ensures k > 0 && 0 <= a < |prev| && s.g.HasEdge(prev[a]) && s.g.edges[prev[a]].to == a
    ensures Backtracked(s, prev, s.g.edges[prev[a]].from, [prev[a]] + p, k - 1)
  {
    assert Rooted(s, prev, NodeAt(s.g, a, p, 0), k + 0);
    var e := prev[a];
    var u := s.g.edges[e].from;
    forall i | 0 <= i <= |[e] + p|
      ensures Rooted(s, prev, NodeAt(s.g, u, [e] + p, i), k - 1 + i)
    {
      NodeAtConcat(s.g, u, [e], a, p, i);
      if i > 0 {
        assert Rooted(s, prev, NodeAt(s.g, a, p, i - 1), k + (i - 1));
      }
    }
  }

  lemma WalkPrepend(s: Search, e: int, p: seq<int>)
    requires s.g.HasEdge(e) && IsWalk(s.g, s.g.edges[e].to, p, s.dst)
    ensures IsWalk(s.g, s.g.edges[e].from, [e] + p, s.dst)
    ensures s.CostTo([e] + p) == Plus(s.w(s.g.edges[e]), s.CostTo(p))
  {
    WalkConcat(s.g, s.g.edges[e].from, [e], s.g.edges[e].to, p, s.dst);
    CostOfConcat(s.g, s.w, [e], p);
    CostOfSnoc(s.g, s.w, [], e);
    assert [] + [e] == [e];
  }

  function Reversed(p: seq<int>): (r: seq<int>)
    ensures |r| == |p| && forall i :: 0 <= i < |p| ==> r[i] == p[|p| - 1 - i]
  {
    seq(|p|, i requires 0 <= i < |p| => p[|p| - 1 - i])
  }

  lemma ReversedPrepend(e: int, p: seq<int>)
    ensures Reversed([e] + p) == Reversed(p) + [e]
  {
  }

  /** Reverses a path in place, swapping from both ends. */
  method ReverseInPlace(path: array<int>)
    modifies path
    ensures path[..] == Reversed(old(path[..]))
  {
    var i, j := 0, path.Length - 1;
    ghost var before := path[..];
    while i < j
      invariant 0 <= i <= j + 1 && j == path.Length - 1 - i
      invariant forall k :: 0 <= k < i || j < k < path.Length ==> path[k] == before[path.Length - 1 - k]
      invariant forall k :: i <= k <= j ==> path[k] == before[k]
    {
      path[i], path[j] := path[j], path[i];
      i, j := i + 1, j - 1;
    }
  }

  ghost predicate TailsExpanded(s: Search, p: seq<int>, trace: seq<Expansion>) {
    forall i :: 0 <= i < |p| ==> s.g.HasEdge(p[i]) && Expanded(trace, s.g.edges[p[i]].from)
  }

  lemma TailsArePath(s: Search, p: seq<int>, trace: seq<Expansion>)
    requires IsWalk(s.g, s.src, p, s.dst) && TailsExpanded(s, p, trace)
    ensures PathExpanded(s, p, trace)
  {
    forall i | 0 <= i < |p|
      ensures Expanded(trace, NodeAt(s.g, s.src, p, i))
    {
      WalkEdge(s.g, s.src, p, s.dst, i);
    }
  }

  /** The walk found so far leads from `at` to dst within dst's label, k edges from the source. */
  ghost predicate Backtracking(s: Search, st: State, at: int, walk: seq<int>, k: nat, trace: seq<Expansion>)
    requires s.g.HasNode(s.dst) && |st.dist| == s.g.NodeCount()
  {
    && 0 <= at < |st.dist| && st.dist[at].Fin? && Backtracked(s, st.prev, at, walk, k)
    && IsWalk(s.g, at, walk, s.dst) && Leq(Plus(st.dist[at], s.CostTo(walk)), st.dist[s.dst])
    && TailsExpanded(s, walk, trace)
  }

  lemma BacktrackOne(s: Search, st: State, at: int, walk: seq<int>, k: nat, trace: seq<Expansion>)
    requires s.g.HasNode(s.dst) && |st.dist| == |st.prev| == s.g.NodeCount() && at != s.src
    requires PrevOk(s, st) && Anchored(s, st.dist, st.prev, trace) && Backtracking(s, st, at, walk, k, trace)
    ensures k > 0 && 0 <= at < |st.prev| && s.g.HasEdge(st.prev[at])
    ensures Backtracking(s, st, s.g.edges[st.prev[at]].from, [st.prev[at]] + walk, k - 1, trace)
  {
    BacktrackStep(s, st.prev, at, walk, k);
    WalkPrepend(s, st.prev[at], walk);
  }

  lemma BacktrackFromHere(s: Search, st: State, k: nat, trace: seq<Expansion>)
    requires s.g.HasNode(s.dst) && |st.dist| == s.g.NodeCount() && st.dist[s.dst].Fin? && Rooted(s, st.prev, s.dst, k)
    ensures Backtracking(s, st, s.dst, [], k, trace)
  {
  }

  lemma BacktrackDone(s: Search, st: State, walk: seq<int>, k: nat, trace: seq<Expansion>)
    requires s.g.HasNode(s.dst) && |st.dist| == s.g.NodeCount() && Backtracking(s, st, s.src, walk, k, trace)
    requires st.dist[s.src] == ZERO && Best(s, st.dist, s.dst)
    ensures IsPath(s.g, s.src, walk, s.dst) && s.CostTo(walk) == st.dist[s.dst] && PathExpanded(s, walk, trace)
  {
    BacktrackedIsLoopless(s, st.prev, s.src, walk, k);
    TailsArePath(s, walk, trace);
  }

  /** Follows predecessor edges from dst back to the source. */
  method Backtrack(s: Search, ghost st: State, prevEdge: array<int>, ghost trace: seq<Expansion>)
    returns (edges: seq<int>, ghost walk: seq<int>)
    requires s.src != s.dst && |st.dist| == |st.prev| == s.g.NodeCount() <= prevEdge.Length
    requires s.g.HasNode(s.src) && s.g.HasNode(s.dst) && st.prev == prevEdge[..s.g.NodeCount()]
    requires PrevOk(s, st) && AllRooted(s, st) && st.dist[s.src] == ZERO
    requires st.dist[s.dst].Fin? && Best(s, st.dist, s.dst) && Anchored(s, st.dist, st.prev, trace)
    ensures IsPath(s.g, s.src, walk, s.dst) && s.CostTo(walk) == st.dist[s.dst]
    ensures edges == Reversed(walk) && PathExpanded(s, walk, trace)
  {
    edges, walk := [], [];
    var at := s.dst;
    ghost var k: nat :| Rooted(s, st.prev, s.dst, k);
    BacktrackFromHere(s, st, k, trace);
    while at != s.src
      invariant edges == Reversed(walk) && Backtracking(s, st, at, walk, k, trace)
      decreases k
    {
      BacktrackOne(s, st, at, walk, k, trace);
      var edgeId := prevEdge[at];
      assert edgeId == st.prev[at];
      ReversedPrepend(edgeId, walk);
      edges := edges + [edgeId];
      walk := [edgeId] + walk;
      at, k := s.g.edges[edgeId].from, k - 1;
    }
    BacktrackDone(s, st, walk, k, trace);
  }

  /** The predecessor walk turned into travel order. */
  method WalkBack(s: Search, ghost st: State, prevEdge: array<int>, ghost trace: seq<Expansion>) returns (path: seq<int>)
    requires s.src != s.dst && |st.dist| == |st.prev| == s.g.NodeCount() <= prevEdge.Length
    requires s.g.HasNode(s.src) && s.g.HasNode(s.dst) && st.prev == prevEdge[..s.g.NodeCount()]
    requires PrevOk(s, st) && AllRooted(s, st) && st.dist[s.src] == ZERO
    requires st.dist[s.dst].Fin? && Best(s, st.dist, s.dst) && Anchored(s, st.dist, st.prev, trace)
    ensures IsPath(s.g, s.src, path, s.dst) && s.CostTo(path) == st.dist[s.dst]
    ensures PathExpanded(s, path, trace)
  {
    var edges;
    ghost var walk;
    edges, walk := Backtrack(s, st, prevEdge, trace);
    var reversed := new int[|edges|](i requires 0 <= i < |edges| => edges[i]);
    assert reversed[..] == edges;
    ReverseInPlace(reversed);
    path := reversed[..];
    assert path == walk;
  }

  /**
   The settle/relax loop. `trace` lists the expansions in order: the nodes whose
   out-edges were relaxed, each at the cost it then had.
   */
  method ShortestPath(g: Graph, src: int, dst: int, weight: Weight, heuristic: Option<Heuristic>, scratch: Scratch?)
    returns (path: seq<int>, cost: Cost, found: bool, ghost trace: seq<Expansion>)
    requires g.Valid() && Admissible(g, weight, heuristic, dst)
    requires scratch != null ==> scratch.Valid()
    modifies scratch, if scratch == null then {} else {scratch.dist as object, scratch.prevEdge}
    ensures scratch != null ==> scratch.Valid()
    ensures scratch != null ==>
      && (scratch.dist == old(scratch.dist) || fresh(scratch.dist))
      && (scratch.prevEdge == old(scratch.prevEdge) || fresh(scratch.prevEdge))
    ensures scratch != null && g.NodeCount() <= old(scratch.dist.Length) ==>
      scratch.dist == old(scratch.dist) && scratch.prevEdge == old(scratch.prevEdge)
    ensures found <==>
      g.HasNode(src) && g.HasNode(dst) && exists p :: IsWalk(g, src, p, dst) && PathCost(g, weight, p).Fin?
    ensures found ==> IsPath(g, src, path, dst) && cost == PathCost(g, weight, path) && cost.Fin?
    ensures found ==> forall p :: IsWalk(g, src, p, dst) ==> Leq(cost, PathCost(g, weight, p))
    ensures !found ==> path == [] && cost == ZERO
    ensures Accounts(Search(g, weight, heuristic, src, dst), found, path, trace)
    ensures WithinOptimum(Search(g, weight, heuristic, src, dst), trace)
    ensures Consistent(g, weight, heuristic, dst) ==> NoRepeat(trace)
  {
    var count := g.NodeCount();
    trace := [];
    if !g.HasNode(src) || !g.HasNode(dst) {
      return [], ZERO, false, [];
    }
    if src == dst {
      assert IsWalk(g, src, [], dst) && PathCost(g, weight, []).Fin?;
      return [], ZERO, true, [];
    }
    var dist: array<Cost>, prevEdge: array<int>;
    if scratch == null {
      dist := new Cost[count](_ => ZERO);
      prevEdge := new int[count](_ => 0);
    } else {
      dist, prevEdge := scratch.Reset(count);
    }
    var s := Search(g, weight, heuristic, src, dst);
    ghost var st;
    st, trace := Settle(s, dist, prevEdge);
    if dist[dst].Inf? {
      return [], ZERO, false, trace;
    }
    path := WalkBack(s, st, prevEdge, trace);
    assert IsWalk(g, src, path, dst);
    return path, dist[dst], true, trace;
  }

  /** Clears the labels a search will use, whatever an earlier one left in them. */
  method Initialise(dist: array<Cost>, prevEdge: array<int>, count: nat, src: int)
    requires 0 <= src < count <= dist.Length == prevEdge.Length
    modifies dist, prevEdge
    ensures forall v :: 0 <= v < count ==> dist[v] == if v == src then ZERO else Inf
  {
    for i := 0 to count
      invariant forall v :: 0 <= v < i ==> dist[v] == Inf
    {
      dist[i] := Inf;
    }
    for i := 0 to count
      invariant forall v :: 0 <= v < count ==> dist[v] == Inf
    {
      prevEdge[i] := -1;
    }
    dist[src] := ZERO;
  }

  /** The labels and the frontier a search starts from. */
  method Begin(s: Search, dist: array<Cost>, prevEdge: array<int>) returns (queue: set<Item>, ghost st: State)
    requires s.Valid() && s.g.NodeCount() <= dist.Length == prevEdge.Length
    modifies dist, prevEdge
    ensures st == State(dist[..s.g.NodeCount()], prevEdge[..s.g.NodeCount()], queue)
    ensures Inv(s, st, {}) && TraceOk(s, st, [])
  {
    var count := s.g.NodeCount();
    Initialise(dist, prevEdge, count, s.src);
    queue := {Item(s.src, ZERO, Priority(s.h, s.src, ZERO))};
    st := State(dist[..count], prevEdge[..count], queue);
    InvInitially(s, st);
  }

  /** What the loop keeps. */
  ghost predicate Searching(s: Search, st: State, trace: seq<Expansion>, done: bool) {
    Inv(s, st, {}) && TraceOk(s, st, trace) && (done ==> st.dist[s.dst].Fin? && Best(s, st.dist, s.dst))
  }

  /** What it leaves behind: optimal, rooted labels and a trace that accounts for the work. */
  ghost predicate Settled(s: Search, st: State, trace: seq<Expansion>) {
    && |st.dist| == |st.prev| == s.g.NodeCount() && s.g.HasNode(s.src) && s.g.HasNode(s.dst)
    && PrevOk(s, st) && AllRooted(s, st) && st.dist[s.src] == ZERO && Best(s, st.dist, s.dst)
    && WithinOptimum(s, trace) && Anchored(s, st.dist, st.prev, trace)
    && (st.dist[s.dst].Inf? ==> AllExpanded(s, trace))
    && (Consistent(s.g, s.w, s.h, s.dst) ==> NoRepeat(trace))
  }

  lemma SearchSettles(s: Search, st: State, trace: seq<Expansion>, done: bool)
    requires s.Valid() && Searching(s, st, trace, done) && (st.queue == {} || done)
    ensures Settled(s, st, trace)
  {
    if !done {
      DrainedIsBest(s, st, s.dst);
      DrainedHasExpandedAll(s, st, trace);
    }
  }

  /** Runs the loop until dst is settled or the frontier is empty. */
  method Settle(s: Search, dist: array<Cost>, prevEdge: array<int>)
    returns (ghost st: State, ghost trace: seq<Expansion>)
    requires s.Valid() && s.g.NodeCount() <= dist.Length == prevEdge.Length
    modifies dist, prevEdge
    ensures st.dist == dist[..s.g.NodeCount()] && st.prev == prevEdge[..s.g.NodeCount()]
    ensures Settled(s, st, trace)
  {
    var queue;
    queue, st := Begin(s, dist, prevEdge);
    trace := [];
    var done := false;
    while queue != {} && !done
      invariant st == State(dist[..s.g.NodeCount()], prevEdge[..s.g.NodeCount()], queue)
      invariant Searching(s, st, trace, done)
      decreases !done, Slack(s, st.dist), queue
    {
      done, st, trace, queue := SettleOne(s, st, trace, queue, dist, prevEdge);
    }
    SearchSettles(s, st, trace, done);
  }

  /** Takes the least entry off the frontier: a stale one is dropped, dst ends the search, any other is expanded. */
  method SettleOne(s: Search, ghost st: State, ghost trace: seq<Expansion>, queue: set<Item>,
                   dist: array<Cost>, prevEdge: array<int>)
    returns (done: bool, ghost st': State, ghost trace': seq<Expansion>, queue': set<Item>)
    requires s.Valid() && s.g.NodeCount() <= dist.Length == prevEdge.Length && queue != {}
    requires st == State(dist[..s.g.NodeCount()], prevEdge[..s.g.NodeCount()], queue)
    requires Searching(s, st, trace, false)
    modifies dist, prevEdge
    ensures st' == State(dist[..s.g.NodeCount()], prevEdge[..s.g.NodeCount()], queue')
    ensures Searching(s, st', trace', done)
    ensures !done ==> Slack(s, st'.dist) < Slack(s, st.dist) || (st'.dist == st.dist && queue' < queue)
  {
    done, st', trace', queue' := false, st, trace, queue;
    var cur := PopMin(queue);
    if Less(dist[cur.node], cur.g) {
      PopStale(s, st, cur, trace);
      queue' := queue - {cur};
      st' := Pop(st, cur);
    } else if cur.node == s.dst {
      PoppedTargetIsBest(s, st, cur);
      done := true;
    } else {
      st', trace', queue' := Expand(s, st, trace, cur, queue, dist, prevEdge);
    }
  }

  /** Takes a fresh entry off the frontier and relaxes the out-edges of its node. */
  method Expand(s: Search, ghost st: State, ghost trace: seq<Expansion>, cur: Item,
                queue: set<Item>, dist: array<Cost>, prevEdge: array<int>)
    returns (ghost st': State, ghost trace': seq<Expansion>, queue': set<Item>)
    requires Admissible(s.g, s.w, s.h, s.dst) && cur.node != s.dst
    requires s.g.NodeCount() <= dist.Length == prevEdge.Length
    requires st == State(dist[..s.g.NodeCount()], prevEdge[..s.g.NodeCount()], queue)
    requires Inv(s, st, {}) && TraceOk(s, st, trace)
    requires Least(queue, cur) && cur.g == st.dist[cur.node]
    modifies dist, prevEdge
    ensures st' == State(dist[..s.g.NodeCount()], prevEdge[..s.g.NodeCount()], queue')
    ensures Inv(s, st', {}) && TraceOk(s, st', trace')
    ensures trace' == trace + [Expansion(cur.node, cur.g)]
    ensures Slack(s, st'.dist) < Slack(s, st.dist) || (st'.dist == st.dist && queue' < queue)
  {
    var count := s.g.NodeCount();
    var outs := s.g.OutEdgeIds(cur.node);
    ExpandKeepsTrace(s, st, cur, trace);
    PopFresh(s, st, cur, Rest(outs, 0));
    queue' := queue - {cur};
    st' := Pop(st, cur);
    trace' := trace + [Expansion(cur.node, cur.g)];
    ExpandedSnoc(trace, Expansion(cur.node, cur.g));
    for k := 0 to |outs|
      invariant st' == State(dist[..count], prevEdge[..count], queue')
      invariant Inv(s, st', Rest(outs, k)) && TraceOk(s, st', trace')
      invariant st'.dist[cur.node] == cur.g
      invariant Slack(s, st'.dist) < Slack(s, st.dist) || (st'.dist == st.dist && queue' < queue)
    {
      queue', st' := Relax(s, st', trace', Rest(outs, k), outs[k], queue', dist, prevEdge);
      RestStep(outs, k);
    }
  }

  ghost function Rest(ids: seq<int>, k: nat): set<int>
    requires k <= |ids|
  {
    set i | k <= i < |ids| :: ids[i]
  }

  lemma RestStep(ids: seq<int>, k: nat)
    requires k < |ids| && forall i, j :: 0 <= i < j < |ids| ==> ids[i] < ids[j]
    ensures Rest(ids, k + 1) == Rest(ids, k) - {ids[k]}
  {
    assert forall i :: k < i < |ids| ==> ids[i] in Rest(ids, k);
  }

  /** Relaxes one edge: overwrites its head's label and predecessor, and pushes the head, if that improves it. */
  method Relax(s: Search, ghost st: State, ghost trace: seq<Expansion>, ghost pending: set<int>, edgeId: int,
               queue: set<Item>, dist: array<Cost>, prevEdge: array<int>)
    returns (queue': set<Item>, ghost st': State)
    requires s.g.NodeCount() <= dist.Length == prevEdge.Length
    requires st == State(dist[..s.g.NodeCount()], prevEdge[..s.g.NodeCount()], queue)
    requires Inv(s, st, pending) && TraceOk(s, st, trace) && s.g.HasEdge(edgeId)
    requires Expanded(trace, s.g.edges[edgeId].from)
    modifies dist, prevEdge
    ensures st' == State(dist[..s.g.NodeCount()], prevEdge[..s.g.NodeCount()], queue')
    ensures st' == Relaxed(s, st, edgeId)
    ensures Inv(s, st', pending - {edgeId}) && TraceOk(s, st', trace)
    ensures st'.dist[s.g.edges[edgeId].from] == st.dist[s.g.edges[edgeId].from]
    ensures st' == st || Slack(s, st'.dist) < Slack(s, st.dist)
  {
    queue' := queue;
    var edge := s.g.edges[edgeId];
    var relaxed := Plus(dist[edge.from], s.w(edge));
    if Less(relaxed, dist[edge.to]) {
      dist[edge.to] := relaxed;
      prevEdge[edge.to] := edge.id;
      queue' := queue + {Item(edge.to, relaxed, Priority(s.h, edge.to, relaxed))};
    }
    st' := Relaxed(s, st, edgeId);
    RelaxKeepsInv(s, st, edgeId, pending, trace);
  }

  /** The search without a heuristic. */
  method Dijkstra(g: Graph, src: int, dst: int, weight: Weight, scratch: Scratch?)
    returns (path: seq<int>, cost: Cost, found: bool, ghost trace: seq<Expansion>)
    requires g.Valid()
    requires scratch != null ==> scratch.Valid()
    modifies scratch, if scratch == null then {} else {scratch.dist as object, scratch.prevEdge}
    ensures scratch != null ==> scratch.Valid()
    ensures scratch != null ==>
      && (scratch.dist == old(scratch.dist) || fresh(scratch.dist))
      && (scratch.prevEdge == old(scratch.prevEdge) || fresh(scratch.prevEdge))
    ensures scratch != null && g.NodeCount() <= old(scratch.dist.Length) ==>
      scratch.dist == old(scratch.dist) && scratch.prevEdge == old(scratch.prevEdge)
    ensures found <==>
      g.HasNode(src) && g.HasNode(dst) && exists p :: IsWalk(g, src, p, dst) && PathCost(g, weight, p).Fin?
    ensures found ==> IsPath(g, src, path, dst) && cost == PathCost(g, weight, path) && cost.Fin?
    ensures found ==> forall p :: IsWalk(g, src, p, dst) ==> Leq(cost, PathCost(g, weight, p))
    ensures !found ==> path == [] && cost == ZERO
    ensures Accounts(Search(g, weight, None, src, dst), found, path, trace)
    ensures WithinOptimum(Search(g, weight, None, src, dst), trace) && NoRepeat(trace)
  {
    ConsistentIsAdmissible(Search(g, weight, None, src, dst));
    path, cost, found, trace := ShortestPath(g, src, dst, weight, None, scratch);
  }
}
