/** The loader's diagnostic: weak components of the network, their sizes, and who is cut off. */
module Connectivity {
  import opened Results
  import opened Sets
  import opened Graphs
  import opened UnionFinds

  // ---- what a weak component is

  /** Some edge among the first k joins x and y, in either direction. */
  predicate Touches(edges: seq<Edge>, k: nat, x: int, y: int)
    requires k <= |edges|
  {
    exists e :: 0 <= e < k && ((edges[e].from == x && edges[e].to == y) || (edges[e].from == y && edges[e].to == x))
  }

  /** p walks from x to y along the first k edges, ignoring their direction. */
  ghost predicate IsChain(edges: seq<Edge>, k: nat, p: seq<int>, x: int, y: int)
    requires k <= |edges|
  {
    && |p| > 0 && p[0] == x && p[|p| - 1] == y
    && forall i, j :: 0 <= i < |p| - 1 && j == i + 1 ==> Touches(edges, k, p[i], p[j])
  }

  ghost predicate Connected(edges: seq<Edge>, k: nat, x: int, y: int)
    requires k <= |edges|
  {
    exists p :: IsChain(edges, k, p, x, y)
  }

  lemma ConnectedSelf(edges: seq<Edge>, k: nat, x: int)
    requires k <= |edges|
    ensures Connected(edges, k, x, x)
  {
    assert IsChain(edges, k, [x], x, x);
  }

  lemma ConnectedGrows(edges: seq<Edge>, k: nat, m: nat, x: int, y: int)
    requires k <= m <= |edges| && Connected(edges, k, x, y)
    ensures Connected(edges, m, x, y)
  {
    var p :| IsChain(edges, k, p, x, y);
    forall i, j | 0 <= i < |p| - 1 && j == i + 1
      ensures Touches(edges, m, p[i], p[j])
    {
      assert Touches(edges, k, p[i], p[j]);
    }
    assert IsChain(edges, m, p, x, y);
  }

  lemma ConnectedSymmetric(edges: seq<Edge>, k: nat, x: int, y: int)
    requires k <= |edges| && Connected(edges, k, x, y)
    ensures Connected(edges, k, y, x)
  {
    var p :| IsChain(edges, k, p, x, y);
    var q := seq(|p|, i requires 0 <= i < |p| => p[|p| - 1 - i]);
    forall i, j | 0 <= i < |q| - 1 && j == i + 1
      ensures Touches(edges, k, q[i], q[j])
    {
      assert Touches(edges, k, p[|p| - 1 - j], p[|p| - 1 - i]);
    }
    assert IsChain(edges, k, q, y, x);
  }

  lemma ConnectedTransitive(edges: seq<Edge>, k: nat, x: int, y: int, z: int)
    requires k <= |edges| && Connected(edges, k, x, y) && Connected(edges, k, y, z)
    ensures Connected(edges, k, x, z)
  {
    var p :| IsChain(edges, k, p, x, y);
    var q :| IsChain(edges, k, q, y, z);
    var r := p[..|p| - 1] + q;
    forall i, j | 0 <= i < |r| - 1 && j == i + 1
      ensures Touches(edges, k, r[i], r[j])
    {
      if i < |p| - 1 {
        assert Touches(edges, k, p[i], p[j]);
      } else {
        assert Touches(edges, k, q[i - |p| + 1], q[j - |p| + 1]);
      }
    }
    assert IsChain(edges, k, r, x, z);
  }

  lemma ConnectedByEdge(edges: seq<Edge>, k: nat, e: nat)
    requires e < k <= |edges|
    ensures Connected(edges, k, edges[e].from, edges[e].to)
  {
    assert IsChain(edges, k, [edges[e].from, edges[e].to], edges[e].from, edges[e].to);
  }

  // ---- the forest tracks the components

  /** After k edges: elements with one root are connected, and every edge's ends have one root. */
  ghost predicate Tracks(roots: seq<int>, edges: seq<Edge>, k: nat)
    requires k <= |edges|
  {
    && (forall x, y :: 0 <= x < |roots| && 0 <= y < |roots| && roots[x] == roots[y] ==> Connected(edges, k, x, y))
    && forall e :: 0 <= e < k ==>
         && 0 <= edges[e].from < |roots| && 0 <= edges[e].to < |roots|
         && roots[edges[e].from] == roots[edges[e].to]
  }

  lemma MergeTracks(before: seq<int>, after: seq<int>, edges: seq<Edge>, k: nat)
    requires k < |edges| && Tracks(before, edges, k)
    requires 0 <= edges[k].from < |before| && 0 <= edges[k].to < |before|
    requires Merged(before, after, edges[k].from, edges[k].to)
    ensures Tracks(after, edges, k + 1)
  {
    forall x, y | 0 <= x < |after| && 0 <= y < |after| && after[x] == after[y]
      ensures Connected(edges, k + 1, x, y)
    {
      MergedConnected(before, edges, k, x, y);
    }
  }

  lemma MergedConnected(before: seq<int>, edges: seq<Edge>, k: nat, x: int, y: int)
    requires k < |edges| && Tracks(before, edges, k) && 0 <= x < |before| && 0 <= y < |before|
    requires 0 <= edges[k].from < |before| && 0 <= edges[k].to < |before|
    requires var a, b := edges[k].from, edges[k].to;
      || before[x] == before[y]
      || (before[x] == before[a] && before[y] == before[b])
      || (before[x] == before[b] && before[y] == before[a])
    ensures Connected(edges, k + 1, x, y)
  {
    var a, b := edges[k].from, edges[k].to;
    if before[x] == before[y] {
      ConnectedGrows(edges, k, k + 1, x, y);
    } else {
      var c, d := if before[x] == before[a] then a else b, if before[x] == before[a] then b else a;
      ConnectedGrows(edges, k, k + 1, x, c);
      ConnectedGrows(edges, k, k + 1, d, y);
      ConnectedByEdge(edges, k + 1, k);
      ConnectedSymmetric(edges, k + 1, a, b);
      ConnectedTransitive(edges, k + 1, x, c, d);
      ConnectedTransitive(edges, k + 1, x, d, y);
    }
  }

  lemma {:induction false} ChainSharesRoot(roots: seq<int>, edges: seq<Edge>, k: nat, p: seq<int>, x: int, y: int, i: nat)
    requires k <= |edges| && Tracks(roots, edges, k) && IsChain(edges, k, p, x, y)
    requires i < |p| && 0 <= x < |roots|
    ensures 0 <= p[i] < |roots| && roots[p[i]] == roots[x]
  {
    if i > 0 {
      ChainSharesRoot(roots, edges, k, p, x, y, i - 1);
      assert Touches(edges, k, p[i - 1], p[i]);
    }
  }

  /** After all unions, two nodes share a root iff an undirected chain of edges joins them. */
  lemma SameRootIffConnected(roots: seq<int>, edges: seq<Edge>, x: int, y: int)
    requires Tracks(roots, edges, |edges|) && 0 <= x < |roots| && 0 <= y < |roots|
    ensures roots[x] == roots[y] <==> Connected(edges, |edges|, x, y)
  {
    if Connected(edges, |edges|, x, y) {
      var p :| IsChain(edges, |edges|, p, x, y);
      ChainSharesRoot(roots, edges, |edges|, p, x, y, |p| - 1);
    }
  }

  method UnionEdges(uf: UnionFind, edges: seq<Edge>)
    requires uf.Valid() && forall x :: 0 <= x < uf.parent.Length ==> uf.Roots()[x] == x
    requires forall e :: 0 <= e < |edges| ==>
      0 <= edges[e].from < uf.parent.Length && 0 <= edges[e].to < uf.parent.Length
    modifies uf, uf.parent, uf.rank
    ensures uf.Valid() && Tracks(uf.Roots(), edges, |edges|)
  {
    forall x, y | 0 <= x < uf.parent.Length && 0 <= y < uf.parent.Length && uf.Roots()[x] == uf.Roots()[y]
      ensures Connected(edges, 0, x, y)
    {
      ConnectedSelf(edges, 0, x);
    }
    for k := 0 to |edges|
      invariant uf.Valid() && Tracks(uf.Roots(), edges, k)
    {
      ghost var before := uf.Roots();
      uf.Union(edges[k].from, edges[k].to);
      MergeTracks(before, uf.Roots(), edges, k);
    }
  }

  // ---- the tally

  /** The first n nodes whose root is r. */
  ghost function ClassBelow(roots: seq<int>, r: int, n: nat): set<int>
    requires n <= |roots|
  {
    set x | 0 <= x < n && roots[x] == r
  }

  lemma ClassSnoc(roots: seq<int>, r: int, n: nat)
    requires n < |roots|
    ensures ClassBelow(roots, r, n + 1) == ClassBelow(roots, r, n) + (if roots[n] == r then {n} else {})
    ensures |ClassBelow(roots, r, n + 1)| == |ClassBelow(roots, r, n)| + (if roots[n] == r then 1 else 0)
  {
    assert ClassBelow(roots, r, n + 1) == ClassBelow(roots, r, n) + (if roots[n] == r then {n} else {});
  }

  /** Sizes and lowest members of the classes of the first n nodes. */
  ghost predicate Tallied(roots: seq<int>, n: nat, size: map<int, nat>, lowest: map<int, int>)
    requires n <= |roots|
  {
    && size.Keys == lowest.Keys == (set x | 0 <= x < n :: roots[x])
    && (forall r :: r in size ==> size[r] == |ClassBelow(roots, r, n)|)
    && forall r :: r in lowest ==>
         0 <= lowest[r] < n && roots[lowest[r]] == r && forall x :: 0 <= x < lowest[r] ==> roots[x] != r
  }

  /** Counts one node into the class of its root. */
  method TallyNode(ghost roots: seq<int>, node: nat, root: int, size: map<int, nat>, lowest: map<int, int>)
    returns (newSize: map<int, nat>, newLowest: map<int, int>)
    requires node < |roots| && root == roots[node] && Tallied(roots, node, size, lowest)
    ensures Tallied(roots, node + 1, newSize, newLowest)
  {
    TallySnoc(roots, node, size, lowest);
    newSize, newLowest := size[root := (if root in size then size[root] else 0) + 1], lowest;
    if root !in lowest || node < lowest[root] {
      newLowest := lowest[root := node];
    }
  }

  method Tally(uf: UnionFind) returns (size: map<int, nat>, lowest: map<int, int>)
    requires uf.Valid()
    modifies uf.parent
    ensures uf.Valid() && uf.Roots() == old(uf.Roots())
    ensures Tallied(uf.Roots(), uf.parent.Length, size, lowest)
  {
    size, lowest := map[], map[];
    ghost var roots := uf.Roots();
    TallyNone(roots);
    for node := 0 to uf.parent.Length
      invariant uf.Valid() && uf.Roots() == roots && Tallied(roots, node, size, lowest)
    {
      var root := uf.Find(node);
      size, lowest := TallyNode(roots, node, root, size, lowest);
    }
  }

  lemma TallyNone(roots: seq<int>)
    ensures Tallied(roots, 0, map[], map[])
  {
  }

  lemma TallySnoc(roots: seq<int>, n: nat, size: map<int, nat>, lowest: map<int, int>)
    requires n < |roots| && Tallied(roots, n, size, lowest)
    ensures var r := roots[n];
      && (r in lowest ==> lowest[r] < n)
      && Tallied(roots, n + 1, size[r := (if r in size then size[r] else 0) + 1],
                 if r in lowest then lowest else lowest[r := n])
  {
    var r := roots[n];
    assert (set x | 0 <= x < n + 1 :: roots[x]) == (set x | 0 <= x < n :: roots[x]) + {r};
    forall s | s in size || s == r
      ensures |ClassBelow(roots, s, n + 1)| == |ClassBelow(roots, s, n)| + (if s == r then 1 else 0)
    {
      ClassSnoc(roots, s, n);
    }
    if r !in size {
      assert ClassBelow(roots, r, n) == {};
    }
  }

  /** A class is the largest: bigger than any other, or as big with a lower lowest member. */
  ghost predicate IsLargest(size: map<int, nat>, lowest: map<int, int>, among: set<int>, best: int) {
    && best in among && best in size && best in lowest
    && forall r :: r in among && r != best && r in size && r in lowest ==>
         size[r] < size[best] || (size[r] == size[best] && lowest[best] < lowest[r])
  }

  /** Walks the classes in no particular order. */
  method LargestClass(size: map<int, nat>, lowest: map<int, int>) returns (best: int)
    requires size.Keys == lowest.Keys && size.Keys != {}
    requires forall r, s :: r in lowest && s in lowest && r != s ==> lowest[r] != lowest[s]
    ensures IsLargest(size, lowest, size.Keys, best)
  {
    best := Pick(size.Keys);
    var todo, done := size.Keys - {best}, {best};
    while todo != {}
      invariant todo + done == size.Keys && todo !! done && IsLargest(size, lowest, done, best)
      decreases todo
    {
      var root := Pick(todo);
      if size[root] > size[best] || (size[root] == size[best] && lowest[root] < lowest[best]) {
        best := root;
      }
      todo, done := todo - {root}, done + {root};
    }
  }

  lemma LargestUnique(size: map<int, nat>, lowest: map<int, int>, among: set<int>, a: int, b: int)
    requires IsLargest(size, lowest, among, a) && IsLargest(size, lowest, among, b)
    ensures a == b
  {
  }

  // ---- the diagnostic

  const SAMPLE_CAP := 10

  datatype Warning = Warning(components: nat, largestNodes: nat, fraction: real, unreachable: nat, sample: seq<int>)

  function Share(part: nat, whole: nat): real
    requires whole > 0
  {
    part as real / whole as real
  }

  /** The nodes below n that are not in class r, ascending. */
  function Outside(roots: seq<int>, r: int, n: nat): (out: seq<int>)
    requires n <= |roots|
  {
    if n == 0 then [] else Outside(roots, r, n - 1) + (if roots[n - 1] != r then [n - 1] else [])
  }

  lemma {:induction false} OutsideMembers(roots: seq<int>, r: int, n: nat, x: int)
    requires n <= |roots|
    ensures x in Outside(roots, r, n) <==> 0 <= x < n && roots[x] != r
  {
    if n > 0 {
      OutsideMembers(roots, r, n - 1, x);
    }
  }

  lemma {:induction false} OutsideAscends(roots: seq<int>, r: int, n: nat)
    requires n <= |roots|
    ensures forall i, j :: 0 <= i < j < |Outside(roots, r, n)| ==> Outside(roots, r, n)[i] < Outside(roots, r, n)[j]
  {
    if n > 0 {
      OutsideAscends(roots, r, n - 1);
      var before := Outside(roots, r, n - 1);
      forall i | 0 <= i < |before|
        ensures before[i] < n - 1
      {
        OutsideMembers(roots, r, n - 1, before[i]);
      }
    }
  }

  lemma {:induction false} OutsideCount(roots: seq<int>, r: int, n: nat)
    requires n <= |roots|
    ensures |Outside(roots, r, n)| + |ClassBelow(roots, r, n)| == n
  {
    if n == 0 {
      assert ClassBelow(roots, r, 0) == {};
    } else {
      OutsideCount(roots, r, n - 1);
      ClassSnoc(roots, r, n - 1);
    }
  }

  method CollectOutside(uf: UnionFind, r: int, ghost roots: seq<int>) returns (out: seq<int>)
    requires uf.Valid() && uf.Roots() == roots
    modifies uf.parent
    ensures uf.Valid() && uf.Roots() == roots && out == Outside(roots, r, |roots|)
  {
    out := [];
    for node := 0 to uf.parent.Length
      invariant uf.Valid() && uf.Roots() == roots && out == Outside(roots, r, node)
    {
      var root := uf.Find(node);
      if root != r {
        out := out + [node];
      }
    }
  }

  /** The nodes of x's component. */
  ghost function Component(edges: seq<Edge>, n: nat, x: int): set<int> {
    set y | 0 <= y < n && Connected(edges, |edges|, x, y)
  }

  lemma ClassIsComponent(roots: seq<int>, edges: seq<Edge>, x: int)
    requires Tracks(roots, edges, |edges|) && 0 <= x < |roots|
    ensures ClassBelow(roots, roots[x], |roots|) == Component(edges, |roots|, x)
  {
    forall y | 0 <= y < |roots|
      ensures roots[y] == roots[x] <==> Connected(edges, |edges|, x, y)
    {
      SameRootIffConnected(roots, edges, x, y);
    }
  }

  /** The lowest nodes of the components: one node per component. */
  ghost function Lowests(edges: seq<Edge>, n: nat): set<int> {
    set x | 0 <= x < n && IsLowest(edges, x)
  }

  ghost predicate IsLowest(edges: seq<Edge>, x: int) {
    forall y :: 0 <= y < x ==> !Connected(edges, |edges|, y, x)
  }

  /** m is the lowest node of the largest component, the one with the lowest node among the largest. */
  ghost predicate LeadsLargest(edges: seq<Edge>, n: nat, m: int) {
    && m in Lowests(edges, n)
    && forall x :: x in Lowests(edges, n) && x != m ==>
         || |Component(edges, n, x)| < |Component(edges, n, m)|
         || (|Component(edges, n, x)| == |Component(edges, n, m)| && m < x)
  }

  /** What a warning says about the network. */
  ghost predicate Describes(w: Warning, edges: seq<Edge>, n: nat, m: int) {
    && n > 0 && LeadsLargest(edges, n, m)
    && w.components == |Lowests(edges, n)| && w.largestNodes == |Component(edges, n, m)|
    && w.fraction == Share(w.largestNodes, n) && w.unreachable == n - w.largestNodes
    && |w.sample| == (if w.unreachable < 10 then w.unreachable else 10)
    && (forall i, j :: 0 <= i < j < |w.sample| ==> w.sample[i] < w.sample[j])
    && (forall x :: x in w.sample ==> 0 <= x < n && x !in Component(edges, n, m))
    && forall x, i :: 0 <= x < n && x !in Component(edges, n, m) && x !in w.sample && 0 <= i < |w.sample| ==>
         w.sample[i] < x
  }

  /** The fraction a warning gives is that of the largest component among all nodes. */
  lemma FractionIs(w: Warning, edges: seq<Edge>, n: nat, m: int)
    requires Describes(w, edges, n, m)
    ensures w.fraction * n as real == |Component(edges, n, m)| as real
  {
    ShareTimesWhole(w.largestNodes, n);
  }

  lemma ShareTimesWhole(part: nat, whole: nat)
    requires whole > 0
    ensures Share(part, whole) * whole as real == part as real
  {
  }

  lemma LowestsAreTallied(roots: seq<int>, edges: seq<Edge>, size: map<int, nat>, lowest: map<int, int>, x: int)
    requires Tracks(roots, edges, |edges|) && Tallied(roots, |roots|, size, lowest)
    ensures x in Lowests(edges, |roots|) <==> 0 <= x < |roots| && roots[x] in lowest && lowest[roots[x]] == x
  {
    if 0 <= x < |roots| {
      forall y | 0 <= y < |roots|
        ensures roots[y] == roots[x] <==> Connected(edges, |edges|, y, x)
      {
        SameRootIffConnected(roots, edges, y, x);
      }
    }
  }

  lemma {:induction false} ImageSize(keys: set<int>, lowest: map<int, int>)
    requires keys <= lowest.Keys && forall r, s :: r in keys && s in keys && r != s ==> lowest[r] != lowest[s]
    ensures |set r | r in keys :: lowest[r]| == |keys|
  {
    if keys == {} {
      assert (set r | r in keys :: lowest[r]) == {};
    } else {
      var r := AnyOf(keys);
      ImageSize(keys - {r}, lowest);
      assert (set s | s in keys :: lowest[s]) == (set s | s in keys - {r} :: lowest[s]) + {lowest[r]};
    }
  }

  lemma AnyOf<T>(s: set<T>) returns (e: T)
    requires s != {}
    ensures e in s
  {
    e :| e in s;
  }

  /** There are as many components as lowest nodes. */
  lemma ComponentsCounted(roots: seq<int>, edges: seq<Edge>, size: map<int, nat>, lowest: map<int, int>)
    requires Tracks(roots, edges, |edges|) && Tallied(roots, |roots|, size, lowest)
    ensures |Lowests(edges, |roots|)| == |size.Keys|
  {
    ImageSize(size.Keys, lowest);
    var image := set r | r in size.Keys :: lowest[r];
    forall x
      ensures x in Lowests(edges, |roots|) <==> x in image
    {
      LowestsAreTallied(roots, edges, size, lowest, x);
    }
    assert Lowests(edges, |roots|) == image;
  }

  lemma LargestLeads(roots: seq<int>, edges: seq<Edge>, size: map<int, nat>, lowest: map<int, int>, best: int)
    requires Tracks(roots, edges, |edges|) && Tallied(roots, |roots|, size, lowest)
    requires IsLargest(size, lowest, size.Keys, best)
    ensures LeadsLargest(edges, |roots|, lowest[best])
    ensures size[best] == |Component(edges, |roots|, lowest[best])|
  {
    var m := lowest[best];
    LowestsAreTallied(roots, edges, size, lowest, m);
    ClassIsComponent(roots, edges, m);
    forall x | x in Lowests(edges, |roots|) && x != m
      ensures |Component(edges, |roots|, x)| < |Component(edges, |roots|, m)|
              || (|Component(edges, |roots|, x)| == |Component(edges, |roots|, m)| && m < x)
    {
      LowestsAreTallied(roots, edges, size, lowest, x);
      ClassIsComponent(roots, edges, x);
    }
  }

  lemma SampleDescribes(roots: seq<int>, edges: seq<Edge>, m: int, sample: seq<int>)
    requires Tracks(roots, edges, |edges|) && 0 <= m < |roots|
    requires var out := Outside(roots, roots[m], |roots|);
      sample == if |out| > SAMPLE_CAP then out[..SAMPLE_CAP] else out
    ensures forall i, j :: 0 <= i < j < |sample| ==> sample[i] < sample[j]
    ensures forall x :: x in sample ==> 0 <= x < |roots| && x !in Component(edges, |roots|, m)
    ensures forall x, i ::
      0 <= x < |roots| && x !in Component(edges, |roots|, m) && x !in sample && 0 <= i < |sample| ==> sample[i] < x
  {
    var out := Outside(roots, roots[m], |roots|);
    OutsideAscends(roots, roots[m], |roots|);
    ClassIsComponent(roots, edges, m);
    forall x
      ensures x in out <==> 0 <= x < |roots| && x !in Component(edges, |roots|, m)
    {
      OutsideMembers(roots, roots[m], |roots|, x);
    }
    forall x | x in sample
      ensures x in out
    {
      var i :| 0 <= i < |sample| && sample[i] == x;
      assert out[i] == x;
    }
  }

  function WarningOf(size: map<int, nat>, best: int, nodeCount: nat, outside: seq<int>): Warning
    requires best in size && size[best] <= nodeCount && nodeCount > 0
  {
    var sample := if |outside| > SAMPLE_CAP then outside[..SAMPLE_CAP] else outside;
    Warning(|size.Keys|, size[best], Share(size[best], nodeCount), nodeCount - size[best], sample)
  }

  lemma ClassFits(roots: seq<int>, size: map<int, nat>, lowest: map<int, int>, r: int)
    requires Tallied(roots, |roots|, size, lowest) && r in size
    ensures size[r] <= |roots|
  {
    OutsideCount(roots, r, |roots|);
  }

  lemma WarningDescribes(roots: seq<int>, edges: seq<Edge>, size: map<int, nat>, lowest: map<int, int>, best: int,
                         out: seq<int>, w: Warning)
    requires Tracks(roots, edges, |edges|) && Tallied(roots, |roots|, size, lowest)
    requires |roots| > 0 && IsLargest(size, lowest, size.Keys, best)
    requires out == Outside(roots, best, |roots|) && size[best] <= |roots|
    requires w == WarningOf(size, best, |roots|, out)
    ensures Describes(w, edges, |roots|, lowest[best])
  {
    ComponentsCounted(roots, edges, size, lowest);
    LargestLeads(roots, edges, size, lowest, best);
    SampleDescribes(roots, edges, lowest[best], w.sample);
    OutsideCount(roots, best, |roots|);
  }

  /** One class only: everything is connected. */
  lemma OneClass(roots: seq<int>, edges: seq<Edge>, size: map<int, nat>, lowest: map<int, int>)
    requires Tracks(roots, edges, |edges|) && Tallied(roots, |roots|, size, lowest)
    ensures |size.Keys| <= 1 <==> AllConnected(|roots|, edges)
  {
    if |size.Keys| <= 1 {
      forall x, y | 0 <= x < |roots| && 0 <= y < |roots|
        ensures Connected(edges, |edges|, x, y)
      {
        AtMostOne(size.Keys, roots[x], roots[y]);
        SameRootIffConnected(roots, edges, x, y);
      }
    } else {
      var r, s := TwoOf(size.Keys);
      SameRootIffConnected(roots, edges, lowest[r], lowest[s]);
    }
  }

  lemma AtMostOne(s: set<int>, a: int, b: int)
    requires |s| <= 1 && a in s && b in s
    ensures a == b
  {
    assert |s - {a}| == 0;
    assert b !in s - {a};
  }

  lemma TwoOf(s: set<int>) returns (a: int, b: int)
    requires |s| > 1
    ensures a in s && b in s && a != b
  {
    a := AnyOf(s);
    assert |s - {a}| == |s| - 1;
    b := AnyOf(s - {a});
  }

  /** The warning naming `best` the main component and `out` the nodes outside it. */
  method WarningAbout(edges: seq<Edge>, size: map<int, nat>, lowest: map<int, int>, best: int, out: seq<int>,
                      nodeCount: nat, ghost roots: seq<int>) returns (w: Warning, ghost m: int)
    requires Tracks(roots, edges, |edges|) && Tallied(roots, |roots|, size, lowest) && |roots| == nodeCount > 0
    requires IsLargest(size, lowest, size.Keys, best) && out == Outside(roots, best, |roots|)
    ensures Describes(w, edges, nodeCount, m)
  {
    ClassFits(roots, size, lowest, best);
    w := WarningOf(size, best, nodeCount, out);
    m := lowest[best];
    WarningDescribes(roots, edges, size, lowest, best, out, w);
  }

  /** The class of the main component, and the nodes outside it. */
  method MainClass(uf: UnionFind, size: map<int, nat>, lowest: map<int, int>, ghost roots: seq<int>)
    returns (best: int, outside: seq<int>)
    requires uf.Valid() && uf.Roots() == roots && Tallied(roots, |roots|, size, lowest) && size.Keys != {}
    modifies uf.parent
    ensures IsLargest(size, lowest, size.Keys, best) && outside == Outside(roots, best, |roots|)
  {
    best := LargestClass(size, lowest);
    outside := CollectOutside(uf, best, roots);
  }

  /** A forest over the nodes with the ends of every edge merged, and its tally. */
  method Components(nodeCount: nat, edges: seq<Edge>)
    returns (uf: UnionFind, size: map<int, nat>, lowest: map<int, int>, ghost roots: seq<int>)
    requires forall e :: 0 <= e < |edges| ==> 0 <= edges[e].from < nodeCount && 0 <= edges[e].to < nodeCount
    ensures fresh(uf) && fresh(uf.parent) && uf.Valid() && uf.Roots() == roots && |roots| == nodeCount
    ensures Tracks(roots, edges, |edges|) && Tallied(roots, |roots|, size, lowest)
  {
    uf := new UnionFind(nodeCount);
    UnionEdges(uf, edges);
    size, lowest := Tally(uf);
    roots := uf.Roots();
  }

  ghost predicate AllConnected(nodeCount: nat, edges: seq<Edge>) {
    forall x, y :: 0 <= x < nodeCount && 0 <= y < nodeCount ==> Connected(edges, |edges|, x, y)
  }

  /**
   The diagnostic: silent exactly when every node reaches every other, else a warning that
   counts the components, picks the largest reproducibly, and samples who is outside it.
   */
  method WarnIfNotWeaklyConnected(nodeCount: nat, edges: seq<Edge>) returns (w: Option<Warning>, ghost m: int)
    requires forall e :: 0 <= e < |edges| ==> 0 <= edges[e].from < nodeCount && 0 <= edges[e].to < nodeCount
    ensures w.None? <==> AllConnected(nodeCount, edges)
    ensures w.Some? ==> Describes(w.value, edges, nodeCount, m)
  {
    m := 0;
    if nodeCount < 2 {
      ConnectedSelf(edges, |edges|, 0);
      return None, m;
    }
    var uf, size, lowest;
    ghost var roots;
    uf, size, lowest, roots := Components(nodeCount, edges);
    OneClass(roots, edges, size, lowest);
    if |size.Keys| <= 1 {
      return None, m;
    }
    var warning;
    var best, outside := MainClass(uf, size, lowest, roots);
    warning, m := WarningAbout(edges, size, lowest, best, outside, nodeCount, roots);
    return Some(warning), m;
  }
}
