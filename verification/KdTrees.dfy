/** The static two-dimensional k-d tree and its branch-and-bound nearest-neighbour search. */
module KdTrees {
  import opened Costs
  import opened Results
  import opened Graphs

  datatype KdPoint = KdPoint(pos: LatLon, idx: int)

  /** Children are indices into the node list, -1 for absent; axis 0 splits on latitude, 1 on longitude. */
  datatype KdNode = KdNode(point: nat, left: int, right: int, axis: nat)

  function Along(pos: LatLon, axis: nat): real {
    if axis == 0 then pos.lat else pos.lon
  }

  function Coord(pts: seq<KdPoint>, p: nat, axis: nat): real
    requires p < |pts|
  {
    Along(pts[p].pos, axis)
  }

  // ---- sorting along an axis

  ghost predicate Within(pts: seq<KdPoint>, idxs: seq<nat>) {
    forall i :: 0 <= i < |idxs| ==> idxs[i] < |pts|
  }

  ghost predicate SortedAlong(pts: seq<KdPoint>, idxs: seq<nat>, axis: nat) {
    && Within(pts, idxs)
    && forall i, j :: 0 <= i < j < |idxs| ==> Coord(pts, idxs[i], axis) <= Coord(pts, idxs[j], axis)
  }

  method InsertAlong(pts: seq<KdPoint>, sorted: seq<nat>, x: nat, axis: nat) returns (r: seq<nat>)
    requires SortedAlong(pts, sorted, axis) && x < |pts|
    ensures SortedAlong(pts, r, axis) && multiset(r) == multiset(sorted) + multiset{x}
  {
    var k := |sorted|;
    while k > 0 && Coord(pts, sorted[k - 1], axis) > Coord(pts, x, axis)
      invariant 0 <= k <= |sorted|
      invariant k < |sorted| ==> Coord(pts, x, axis) <= Coord(pts, sorted[k], axis)
    {
      k := k - 1;
    }
    r := sorted[..k] + [x] + sorted[k..];
    InsertedSorted(pts, sorted, k, x, axis);
  }

  lemma InsertedSorted(pts: seq<KdPoint>, sorted: seq<nat>, k: nat, x: nat, axis: nat)
    requires SortedAlong(pts, sorted, axis) && x < |pts| && k <= |sorted|
    requires k > 0 ==> Coord(pts, sorted[k - 1], axis) <= Coord(pts, x, axis)
    requires k < |sorted| ==> Coord(pts, x, axis) <= Coord(pts, sorted[k], axis)
    ensures var r := sorted[..k] + [x] + sorted[k..];
      SortedAlong(pts, r, axis) && multiset(r) == multiset(sorted) + multiset{x}
  {
    SplicedContents(sorted, k, x);
    forall i | 0 <= i < |sorted|
      ensures if i < k then Coord(pts, sorted[i], axis) <= Coord(pts, x, axis)
              else Coord(pts, x, axis) <= Coord(pts, sorted[i], axis)
    {
      if i < k {
        assert i == k - 1 || Coord(pts, sorted[i], axis) <= Coord(pts, sorted[k - 1], axis);
      } else {
        assert i == k || Coord(pts, sorted[k], axis) <= Coord(pts, sorted[i], axis);
      }
    }
    SplicedSorted(pts, sorted, k, x, axis);
  }

  lemma SplicedContents(sorted: seq<nat>, k: nat, x: nat)
    requires k <= |sorted|
    ensures multiset(sorted[..k] + [x] + sorted[k..]) == multiset(sorted) + multiset{x}
  {
    assert sorted == sorted[..k] + sorted[k..];
  }

  lemma SplicedSorted(pts: seq<KdPoint>, sorted: seq<nat>, k: nat, x: nat, axis: nat)
    requires SortedAlong(pts, sorted, axis) && x < |pts| && k <= |sorted|
    requires forall i :: 0 <= i < |sorted| ==>
      if i < k then Coord(pts, sorted[i], axis) <= Coord(pts, x, axis)
      else Coord(pts, x, axis) <= Coord(pts, sorted[i], axis)
    ensures SortedAlong(pts, sorted[..k] + [x] + sorted[k..], axis)
  {
    var r := sorted[..k] + [x] + sorted[k..];
    assert forall i :: 0 <= i < k ==> r[i] == sorted[i];
    assert forall i :: k < i < |r| ==> r[i] == sorted[i - 1];
    forall i, j | 0 <= i < j < |r|
      ensures r[i] < |pts| && r[j] < |pts| && Coord(pts, r[i], axis) <= Coord(pts, r[j], axis)
    {
      var a, b := if i < k then i else i - 1, if j < k then j else j - 1;
      if i == k {
        assert r[j] == sorted[b];
      } else if j == k {
        assert r[i] == sorted[a];
      } else {
        assert r[i] == sorted[a] && r[j] == sorted[b] && a < b;
      }
    }
  }

  /** Some order along the axis; equal coordinates may come in any order. */
  method SortAlong(pts: seq<KdPoint>, idxs: seq<nat>, axis: nat) returns (sorted: seq<nat>)
    requires Within(pts, idxs)
    ensures SortedAlong(pts, sorted, axis) && multiset(sorted) == multiset(idxs)
  {
    sorted := [];
    for i := 0 to |idxs|
      invariant SortedAlong(pts, sorted, axis) && multiset(sorted) == multiset(idxs[..i])
    {
      sorted := InsertAlong(pts, sorted, idxs[i], axis);
      assert idxs[..i + 1] == idxs[..i] + [idxs[i]];
    }
    assert idxs[..|idxs|] == idxs;
  }

  // ---- the shape the node list encodes

  datatype Shape = Leaf | Branch(point: nat, axis: nat, left: Shape, right: Shape)

  function Size(s: Shape): nat {
    match s case Leaf => 0 case Branch(_, _, l, r) => 1 + Size(l) + Size(r)
  }

  ghost function Points(s: Shape): multiset<nat> {
    match s case Leaf => multiset{} case Branch(p, _, l, r) => Points(l) + multiset{p} + Points(r)
  }

  /** The nodes from position lo on are the shape in preorder, and `at` is its root (or -1). */
  ghost predicate Lays(nodes: seq<KdNode>, lo: nat, at: int, s: Shape)
    decreases s
  {
    match s
    case Leaf => at == -1
    case Branch(point, axis, left, right) =>
      && at == lo && lo + Size(s) <= |nodes|
      && nodes[lo].point == point && nodes[lo].axis == axis
      && Lays(nodes, lo + 1, nodes[lo].left, left)
      && Lays(nodes, lo + 1 + Size(left), nodes[lo].right, right)
  }

  /** The first point is not beyond the second, in latitude or in longitude. */
  ghost predicate NotBeyond(pts: seq<KdPoint>, p: nat, r: nat, byLatitude: bool) {
    && p < |pts| && r < |pts|
    && if byLatitude then pts[p].pos.lat <= pts[r].pos.lat else pts[p].pos.lon <= pts[r].pos.lon
  }

  /**
   Median ordering, by latitude and longitude in turn: what lies left of a node is not beyond it,
   what lies right not before.
   */
  ghost predicate Ordered(pts: seq<KdPoint>, s: Shape, depth: nat) {
    match s
    case Leaf => true
    case Branch(point, axis, left, right) =>
      && point < |pts| && axis == depth % 2
      && (forall p :: p in Points(left) ==> NotBeyond(pts, p, point, axis == 0))
      && (forall p :: p in Points(right) ==> NotBeyond(pts, point, p, axis == 0))
      && Ordered(pts, left, depth + 1) && Ordered(pts, right, depth + 1)
  }

  /** The point of every node is the median of its subtree, the upper one of two. */
  ghost predicate Balanced(s: Shape) {
    s.Branch? ==> Size(s.left) == Size(s) / 2 && Balanced(s.left) && Balanced(s.right)
  }

  function Height(s: Shape): nat {
    match s
    case Leaf => 0
    case Branch(_, _, l, r) => 1 + if Height(l) < Height(r) then Height(r) else Height(l)
  }

  function PowerOfTwo(n: nat): nat {
    if n == 0 then 1 else 2 * PowerOfTwo(n - 1)
  }

  /** So a tree of n points is no higher than one more than the logarithm of n. */
  lemma {:induction false} HeightIsLogarithmic(s: Shape, top: nat)
    requires Balanced(s) && Size(s) < PowerOfTwo(top)
    ensures Height(s) <= top
    decreases s
  {
    match s
    case Leaf =>
    case Branch(_, _, left, right) =>
      assert top > 0;
      assert Size(s) == 1 + Size(left) + Size(right);
      HeightIsLogarithmic(left, top - 1);
      HeightIsLogarithmic(right, top - 1);
  }

  lemma {:induction false} LaysFrame(a: seq<KdNode>, b: seq<KdNode>, lo: nat, at: int, s: Shape)
    requires Lays(a, lo, at, s) && lo + Size(s) <= |b|
    requires forall i :: lo <= i < lo + Size(s) && i < |a| ==> a[i] == b[i]
    ensures Lays(b, lo, at, s)
    decreases s
  {
    match s
    case Leaf =>
    case Branch(_, _, left, right) =>
      assert Size(s) == 1 + Size(left) + Size(right);
      LaysFrame(a, b, lo + 1, a[lo].left, left);
      LaysFrame(a, b, lo + 1 + Size(left), a[lo].right, right);
  }

  /** Children come later in the node list than their parent. */
  lemma ChildrenFollow(nodes: seq<KdNode>, lo: nat, at: int, s: Shape)
    requires Lays(nodes, lo, at, s) && s.Branch?
    ensures nodes[at].left == -1 || nodes[at].left == at + 1
    ensures nodes[at].right == -1 || at < nodes[at].right < |nodes|
  {
  }

  class KdTree {
    const pts: seq<KdPoint>
    var nodes: seq<KdNode>
    var root: int

    constructor (pts: seq<KdPoint>)
      ensures this.pts == pts && nodes == [] && root == -1
    {
      this.pts, nodes, root := pts, [], -1;
    }

    /** Partitions by the median along the depth's axis and appends the nodes of the subtree. */
    method Build(idxs: seq<nat>, depth: nat) returns (self: int, ghost shape: Shape)
      requires Within(pts, idxs)
      modifies `nodes
      ensures |nodes| == |old(nodes)| + |idxs| && nodes[..|old(nodes)|] == old(nodes)
      ensures Lays(nodes, |old(nodes)|, self, shape) && Size(shape) == |idxs|
      ensures Ordered(pts, shape, depth) && Points(shape) == multiset(idxs) && Balanced(shape)
      decreases |idxs|, 1
    {
      if |idxs| == 0 {
        return -1, Leaf;
      }
      var axis := depth % 2;
      var sorted := SortAlong(pts, idxs, axis);
      SameLength(sorted, idxs);
      var mid := |sorted| / 2;
      self := |nodes|;
      nodes := nodes + [KdNode(sorted[mid], -1, -1, axis)];
      var left, right;
      ghost var l, r;
      left, l, right, r := BuildSides(sorted, mid, depth + 1, old(nodes), KdNode(sorted[mid], -1, -1, axis));
      nodes := nodes[self := nodes[self].(left := left, right := right)];
      shape := Branch(sorted[mid], axis, l, r);
      BranchOrdered(pts, idxs, sorted, mid, depth, l, r);
    }

    /** Both subtrees of a node just appended. */
    method BuildSides(sorted: seq<nat>, mid: nat, depth: nat, ghost before: seq<KdNode>, ghost node: KdNode)
      returns (left: int, ghost l: Shape, right: int, ghost r: Shape)
      requires mid < |sorted| && Within(pts, sorted) && nodes == before + [node] && node.left == node.right == -1
      modifies `nodes
      ensures |nodes| == |before| + |sorted| && nodes[|before|] == node
      ensures var after := nodes[|before| := node.(left := left, right := right)];
        && after[..|before|] == before
        && Lays(after, |before|, |before|, Branch(node.point, node.axis, l, r))
      ensures Size(l) == mid && Size(l) + Size(r) + 1 == |sorted| && Balanced(l) && Balanced(r)
      ensures Ordered(pts, l, depth) && Points(l) == multiset(sorted[..mid])
      ensures Ordered(pts, r, depth) && Points(r) == multiset(sorted[mid + 1..])
      decreases |sorted|, 0
    {
      ghost var withNode := nodes;
      left, l := Build(sorted[..mid], depth);
      ghost var afterLeft := nodes;
      right, r := Build(sorted[mid + 1..], depth);
      GrownTwice(before, node, withNode, afterLeft, nodes);
      BranchLays(before, node.point, node.axis, withNode, afterLeft, left, l, nodes, right, r);
    }
  }

  lemma BranchOrdered(pts: seq<KdPoint>, idxs: seq<nat>, sorted: seq<nat>, mid: nat, depth: nat, l: Shape, r: Shape)
    requires SortedAlong(pts, sorted, depth % 2) && mid < |sorted| && multiset(sorted) == multiset(idxs)
    requires Points(l) == multiset(sorted[..mid]) && Ordered(pts, l, depth + 1)
    requires Points(r) == multiset(sorted[mid + 1..]) && Ordered(pts, r, depth + 1)
    ensures var shape := Branch(sorted[mid], depth % 2, l, r);
      Ordered(pts, shape, depth) && Points(shape) == multiset(idxs)
  {
    MedianSplits(pts, sorted, mid, depth % 2);
  }

  /** Writing to a node leaves a subtree laid out behind it, also when more nodes follow. */
  lemma StillLays(a: seq<KdNode>, grown: seq<KdNode>, lo: nat, node: KdNode, from: nat, at: int, s: Shape)
    requires lo < from && |a| <= |grown| && grown[..|a|] == a && from + Size(s) == |a| && Lays(a, from, at, s)
    ensures Lays(grown[lo := node], from, at, s)
  {
    forall i | from <= i < |a|
      ensures a[i] == grown[lo := node][i]
    {
      assert a[i] == grown[..|a|][i];
    }
    LaysFrame(a, grown[lo := node], from, at, s);
  }

  /** Both subtrees, laid out behind a node, and the node pointing at them. */
  lemma BranchLays(before: seq<KdNode>, point: nat, axis: nat, withNode: seq<KdNode>,
                   afterLeft: seq<KdNode>, left: int, l: Shape, afterRight: seq<KdNode>, right: int, r: Shape)
    requires withNode == before + [KdNode(point, -1, -1, axis)]
    requires |afterLeft| == |withNode| + Size(l) && afterLeft[..|withNode|] == withNode
    requires |afterRight| == |afterLeft| + Size(r) && afterRight[..|afterLeft|] == afterLeft
    requires Lays(afterLeft, |withNode|, left, l) && Lays(afterRight, |afterLeft|, right, r)
    ensures var lo := |before|;
      var nodes := afterRight[lo := afterRight[lo].(left := left, right := right)];
      nodes[..lo] == before && Lays(nodes, lo, lo, Branch(point, axis, l, r))
  {
    var lo := |before|;
    GrownTwice(before, KdNode(point, -1, -1, axis), withNode, afterLeft, afterRight);
    var node := afterRight[lo].(left := left, right := right);
    StillLays(afterLeft, afterRight, lo, node, |withNode|, left, l);
    StillLays(afterRight, afterRight, lo, node, |afterLeft|, right, r);
    assert afterRight[lo := node][..lo] == before;
  }

  lemma GrownTwice(before: seq<KdNode>, node: KdNode, withNode: seq<KdNode>, afterLeft: seq<KdNode>,
                   afterRight: seq<KdNode>)
    requires withNode == before + [node]
    requires |afterLeft| >= |withNode| && afterLeft[..|withNode|] == withNode
    requires |afterRight| >= |afterLeft| && afterRight[..|afterLeft|] == afterLeft
    ensures afterRight[|before|] == node && afterRight[..|before|] == before
    ensures forall i :: 0 <= i < |afterLeft| ==> afterRight[i] == afterLeft[i]
  {
    assert forall i :: 0 <= i < |afterLeft| ==> afterRight[i] == afterRight[..|afterLeft|][i];
    assert forall i :: 0 <= i < |withNode| ==> afterLeft[i] == afterLeft[..|withNode|][i];
  }

  lemma SameLength(a: seq<nat>, b: seq<nat>)
    requires multiset(a) == multiset(b)
    ensures |a| == |b| && forall x :: x in a ==> x in b
  {
    assert |multiset(a)| == |a| && |multiset(b)| == |b|;
    forall x | x in a
      ensures x in b
    {
      assert x in multiset(a);
    }
  }

  lemma MedianSplits(pts: seq<KdPoint>, sorted: seq<nat>, mid: nat, axis: nat)
    requires SortedAlong(pts, sorted, axis) && mid < |sorted|
    ensures multiset(sorted) == multiset(sorted[..mid]) + multiset{sorted[mid]} + multiset(sorted[mid + 1..])
    ensures forall p :: p in multiset(sorted[..mid]) ==> NotBeyond(pts, p, sorted[mid], axis == 0)
    ensures var right := multiset(sorted[mid + 1..]);
      forall p :: p in right ==> NotBeyond(pts, sorted[mid], p, axis == 0)
  {
    assert sorted == sorted[..mid] + [sorted[mid]] + sorted[mid + 1..];
  }

  // ---- building over all points

  function Upto(n: nat): (s: seq<nat>)
    ensures |s| == n && forall i :: 0 <= i < n ==> s[i] == i
  {
    seq(n, i => i)
  }

  lemma {:induction false} UptoOnce(n: nat, x: nat)
    ensures multiset(Upto(n))[x] == if x < n then 1 else 0
  {
    if n > 0 {
      UptoOnce(n - 1, x);
      assert Upto(n) == Upto(n - 1) + [n - 1];
    }
  }

  /** A tree over the points: laid out in its node list, median-ordered, each point in exactly one node. */
  ghost predicate IsTree(pts: seq<KdPoint>, nodes: seq<KdNode>, root: int, s: Shape) {
    && Lays(nodes, 0, root, s) && Ordered(pts, s, 0) && Balanced(s) && |nodes| == Size(s) == |pts|
    && forall p: nat :: Points(s)[p] == if p < |pts| then 1 else 0
  }

  method NewKdTree(pts: seq<KdPoint>) returns (tree: KdTree, ghost shape: Shape)
    ensures fresh(tree) && tree.pts == pts && IsTree(pts, tree.nodes, tree.root, shape)
  {
    tree := new KdTree(pts);
    var root;
    root, shape := tree.Build(Upto(|pts|), 0);
    tree.root := root;
    forall p: nat
      ensures Points(shape)[p] == if p < |pts| then 1 else 0
    {
      UptoOnce(|pts|, p);
    }
  }

  // ---- searching

  /** A distance on positions and what it costs, at least, to be a gap away along one axis. */
  datatype Metric = Metric(distance: (LatLon, LatLon) -> real, axisBound: (nat, real) -> real)

  /** From q, the axis bound grows with the gap and never exceeds the distance to a point that far along the axis. */
  ghost predicate Admissible(m: Metric, q: LatLon, pts: seq<KdPoint>) {
    && (forall axis: nat, a: real, b: real {:trigger m.axisBound(axis, a), m.axisBound(axis, b)} ::
          Abs(a) <= Abs(b) ==> m.axisBound(axis, a) <= m.axisBound(axis, b))
    && forall i, axis: nat {:trigger Along(pts[i].pos, axis)} :: 0 <= i < |pts| ==>
         m.axisBound(axis, Along(q, axis) - Along(pts[i].pos, axis)) <= m.distance(q, pts[i].pos)
  }

  /** The best point so far and its distance; the distance is Inf before any point was seen. */
  datatype Best = Best(point: int, distance: Extended)

  predicate Beats(d: real, best: Best) {
    best.distance.Inf? || d < best.distance.value
  }

  /** after is at least as good as before and as every point of s, and is before or one of those points. */
  ghost predicate BestAmong(m: Metric, q: LatLon, pts: seq<KdPoint>, s: multiset<nat>, before: Best, after: Best) {
    && (after == before
        || (0 <= after.point < |pts| && after.point in s
            && after.distance == Fin(m.distance(q, pts[after.point].pos))))
    && (before.distance.Fin? ==> after.distance.Fin? && after.distance.value <= before.distance.value)
    && forall p :: p in s && p < |pts| ==> !Beats(m.distance(q, pts[p].pos), after)
  }

  /** Everything beyond a splitting plane is at least the plane's bound away. */
  lemma BeyondPlane(m: Metric, q: LatLon, pts: seq<KdPoint>, point: nat, axis: nat, far: multiset<nat>, gap: real)
    requires Admissible(m, q, pts) && point < |pts| && gap == Along(q, axis) - Coord(pts, point, axis)
    requires forall p :: p in far ==> p < |pts|
    requires gap > 0.0 ==> forall p :: p in far ==> Coord(pts, p, axis) <= Coord(pts, point, axis)
    requires gap <= 0.0 ==> forall p :: p in far ==> Coord(pts, point, axis) <= Coord(pts, p, axis)
    ensures forall p :: p in far ==> m.axisBound(axis, gap) <= m.distance(q, pts[p].pos)
  {
    forall p | p in far
      ensures m.axisBound(axis, gap) <= m.distance(q, pts[p].pos)
    {
      var wide := Along(q, axis) - Along(pts[p].pos, axis);
      assert Abs(gap) <= Abs(wide);
      assert m.axisBound(axis, gap) <= m.axisBound(axis, wide);
    }
  }

  lemma BestStep(m: Metric, q: LatLon, pts: seq<KdPoint>, a: multiset<nat>, b: multiset<nat>,
                 x: Best, y: Best, z: Best)
    requires BestAmong(m, q, pts, a, x, y) && BestAmong(m, q, pts, b, y, z)
    ensures BestAmong(m, q, pts, a + b, x, z)
  {
  }

  /** Skipping the far side loses nothing when its plane is no nearer than the best so far. */
  lemma PrunedFar(m: Metric, q: LatLon, pts: seq<KdPoint>, s: Shape, depth: nat, gap: real, seen: Best)
    requires s.Branch? && Ordered(pts, s, depth) && Admissible(m, q, pts)
    requires gap == Along(q, s.axis) - Coord(pts, s.point, s.axis) && !Beats(m.axisBound(s.axis, gap), seen)
    ensures BestAmong(m, q, pts, Points(Side(s, !(gap > 0.0))), seen, seen)
  {
    BeyondPlane(m, q, pts, s.point, s.axis, Points(if gap > 0.0 then s.left else s.right), gap);
  }

  /** The node's own point, then one side, then the other. */
  lemma AllSeen(m: Metric, q: LatLon, pts: seq<KdPoint>, s: Shape, right: bool, best: Best, here: Best, seen: Best, after: Best)
    requires s.Branch? && BestAmong(m, q, pts, multiset{s.point}, best, here)
    requires BestAmong(m, q, pts, Points(Side(s, right)), here, seen)
    requires BestAmong(m, q, pts, Points(Side(s, !right)), seen, after)
    ensures BestAmong(m, q, pts, Points(s), best, after)
  {
    var near, far := Points(Side(s, right)), Points(Side(s, !right));
    BestStep(m, q, pts, near, far, here, seen, after);
    BestStep(m, q, pts, multiset{s.point}, near + far, best, here, after);
    assert Points(s) == multiset{s.point} + (near + far);
  }

  /** Descends toward the query, then visits the far side only if its plane is nearer than the best so far. */
  method Search(nodes: seq<KdNode>, pts: seq<KdPoint>, at: int, q: LatLon, m: Metric, best: Best,
                ghost lo: nat, ghost s: Shape, ghost depth: nat)
    returns (after: Best)
    requires Lays(nodes, lo, at, s) && Ordered(pts, s, depth) && Admissible(m, q, pts)
    ensures BestAmong(m, q, pts, Points(s), best, after)
    decreases s
  {
    if at < 0 {
      return best;
    }
    var node := nodes[at];
    var here := Consider(pts, node.point, q, m, best);
    var gap := Along(q, node.axis) - Along(pts[node.point].pos, node.axis);
    var right := gap > 0.0;
    var near, far := if right then node.right else node.left, if right then node.left else node.right;
    BranchHere(nodes, lo, at, s);
    SidesOrdered(pts, s, depth);
    ghost var nearFrom, farFrom := SideStart(lo, s, right), SideStart(lo, s, !right);
    SideLays(nodes, pts, lo, s, depth + 1, node.left, node.right, nearFrom, near, Side(s, right), right);
    SideLays(nodes, pts, lo, s, depth + 1, node.left, node.right, farFrom, far, Side(s, !right), !right);
    var seen := Search(nodes, pts, near, q, m, here, nearFrom, Side(s, right), depth + 1);
    if Beats(m.axisBound(node.axis, gap), seen) {
      after := Search(nodes, pts, far, q, m, seen, farFrom, Side(s, !right), depth + 1);
    } else {
      after := seen;
      PrunedFar(m, q, pts, s, depth, gap, seen);
    }
    AllSeen(m, q, pts, s, right, best, here, seen, after);
  }

  function Side(s: Shape, right: bool): Shape
    requires s.Branch?
  {
    if right then s.right else s.left
  }

  function SideStart(lo: nat, s: Shape, right: bool): nat
    requires s.Branch?
  {
    if right then lo + 1 + Size(s.left) else lo + 1
  }

  lemma BranchHere(nodes: seq<KdNode>, lo: nat, at: int, s: Shape)
    requires Lays(nodes, lo, at, s) && at >= 0
    ensures s.Branch? && at == lo < |nodes| && nodes[lo].point == s.point && nodes[lo].axis == s.axis
    ensures Lays(nodes, lo + 1, nodes[lo].left, s.left)
    ensures Lays(nodes, lo + 1 + Size(s.left), nodes[lo].right, s.right)
  {
  }

  lemma SidesOrdered(pts: seq<KdPoint>, s: Shape, depth: nat)
    requires Ordered(pts, s, depth) && s.Branch?
    ensures Ordered(pts, s.left, depth + 1) && Ordered(pts, s.right, depth + 1)
  {
  }

  lemma SideLays(nodes: seq<KdNode>, pts: seq<KdPoint>, lo: nat, s: Shape, depth: nat, left: int, right: int,
                 start: nat, at: int, side: Shape, rightward: bool)
    requires s.Branch? && Ordered(pts, s.left, depth) && Ordered(pts, s.right, depth)
    requires Lays(nodes, lo + 1, left, s.left) && Lays(nodes, lo + 1 + Size(s.left), right, s.right)
    requires start == SideStart(lo, s, rightward) && side == Side(s, rightward)
    requires at == if rightward then right else left
    ensures Lays(nodes, start, at, side) && Ordered(pts, side, depth)
  {
    if rightward {
      assert start == lo + 1 + Size(s.left) && at == right && side == s.right;
      return;
    }
    assert start == lo + 1 && at == left && side == s.left;
  }

  method Consider(pts: seq<KdPoint>, p: nat, q: LatLon, m: Metric, best: Best) returns (after: Best)
    requires p < |pts|
    ensures BestAmong(m, q, pts, multiset{p}, best, after)
  {
    var distance := m.distance(q, pts[p].pos);
    after := if Beats(distance, best) then Best(p, Fin(distance)) else best;
  }

  /** The payload of a point at minimum distance over all points; None exactly when there are none. */
  method Nearest(tree: KdTree, q: LatLon, m: Metric, ghost shape: Shape) returns (idx: Option<int>)
    requires IsTree(tree.pts, tree.nodes, tree.root, shape) && Admissible(m, q, tree.pts)
    ensures idx.None? <==> tree.pts == []
    ensures idx.Some? ==>
      exists i :: 0 <= i < |tree.pts| && tree.pts[i].idx == idx.value && IsNearest(m, q, tree.pts, i)
  {
    if tree.root < 0 {
      assert shape == Leaf;
      return None;
    }
    var best := Search(tree.nodes, tree.pts, tree.root, q, m, Best(-1, Inf), 0, shape, 0);
    assert Points(shape)[0] == 1;
    NearestFound(m, q, tree.pts, shape, best);
    return Some(tree.pts[best.point].idx);
  }

  ghost predicate IsNearest(m: Metric, q: LatLon, pts: seq<KdPoint>, i: int)
    requires 0 <= i < |pts|
  {
    forall j :: 0 <= j < |pts| ==> m.distance(q, pts[i].pos) <= m.distance(q, pts[j].pos)
  }

  lemma NearestFound(m: Metric, q: LatLon, pts: seq<KdPoint>, s: Shape, best: Best)
    requires |pts| > 0 && forall p: nat :: Points(s)[p] == if p < |pts| then 1 else 0
    requires BestAmong(m, q, pts, Points(s), Best(-1, Inf), best)
    ensures 0 <= best.point < |pts| && IsNearest(m, q, pts, best.point)
  {
    assert Points(s)[0] == 1;
    forall j | 0 <= j < |pts|
      ensures !Beats(m.distance(q, pts[j].pos), best)
    {
      assert Points(s)[j] == 1;
    }
  }

  // ---- a metric that meets the assumptions

  /** The larger coordinate difference, with the difference along one axis as its bound. */
  const PLANAR := Metric(
    (a: LatLon, b: LatLon) =>
      if Abs(a.lat - b.lat) > Abs(a.lon - b.lon) then Abs(a.lat - b.lat) else Abs(a.lon - b.lon),
    (axis: nat, gap: real) => Abs(gap))

  lemma PlanarIsAdmissible(q: LatLon, pts: seq<KdPoint>)
    ensures Admissible(PLANAR, q, pts)
  {
  }
}
