/** The disjoint-set forest behind the connectivity diagnostic. */
module UnionFinds {

  /** Ranks strictly increase along parent links and stay within `top`, so every walk upward ends. */
  ghost predicate IsForest(parent: seq<int>, rank: seq<int>, top: int) {
    && |parent| == |rank|
    && (forall x :: 0 <= x < |parent| ==> 0 <= parent[x] < |parent|)
    && (forall x :: 0 <= x < |rank| ==> 0 <= rank[x] <= top)
    && forall x :: 0 <= x < |parent| && parent[x] != x ==> rank[x] < rank[parent[x]]
  }

  ghost function Root(parent: seq<int>, rank: seq<int>, top: int, x: int): (r: int)
    requires IsForest(parent, rank, top) && 0 <= x < |parent|
    ensures 0 <= r < |parent| && parent[r] == r
    decreases top - rank[x]
  {
    if parent[x] == x then x else Root(parent, rank, top, parent[x])
  }

  /** Pointing a node at its grandparent changes no root. */
  lemma {:induction false} HalvingKeepsRoots(parent: seq<int>, rank: seq<int>, top: int, x: int, y: int)
    requires IsForest(parent, rank, top) && 0 <= x < |parent| && 0 <= y < |parent|
    ensures var halved := parent[x := parent[parent[x]]];
      IsForest(halved, rank, top) && Root(halved, rank, top, y) == Root(parent, rank, top, y)
    decreases top - rank[y]
  {
    var halved := parent[x := parent[parent[x]]];
    assert IsForest(halved, rank, top);
    if halved[y] != y {
      HalvingKeepsRoots(parent, rank, top, x, halved[y]);
    }
  }

  /** Hanging root a under root b, with room in the ranks, moves exactly the nodes of a to b. */
  lemma {:induction false} LinkingMovesRoots(parent: seq<int>, rank: seq<int>, top: int, a: int, b: int,
                                             ranks: seq<int>, y: int)
    requires IsForest(parent, rank, top) && 0 <= a < |parent| && 0 <= b < |parent| && 0 <= y < |parent|
    requires parent[a] == a && parent[b] == b && a != b
    requires |ranks| == |rank| && forall x :: 0 <= x < |rank| && x != b ==> ranks[x] == rank[x]
    requires rank[b] <= ranks[b] <= rank[b] + 1 && rank[a] < ranks[b]
    ensures var linked := parent[a := b];
      && IsForest(linked, ranks, top + 1)
      && Root(linked, ranks, top + 1, y)
         == if Root(parent, rank, top, y) == a then b else Root(parent, rank, top, y)
    decreases top - rank[y]
  {
    var linked := parent[a := b];
    assert IsForest(linked, ranks, top + 1);
    if parent[y] != y {
      LinkingMovesRoots(parent, rank, top, a, b, ranks, parent[y]);
    }
  }

  class UnionFind {
    const parent: array<int>
    const rank: array<int>
    ghost var top: int

    ghost predicate Valid()
      reads this, parent, rank
    {
      parent != rank && IsForest(parent[..], rank[..], top)
    }

    /** The root of every element. */
    ghost function Roots(): (roots: seq<int>)
      requires Valid()
      reads this, parent, rank
      ensures |roots| == parent.Length
      ensures forall x :: 0 <= x < |roots| ==> roots[x] == Root(parent[..], rank[..], top, x)
    {
      seq(parent.Length, x requires 0 <= x < parent.Length && Valid() reads this, parent, rank =>
        Root(parent[..], rank[..], top, x))
    }

    constructor (n: nat)
      ensures Valid() && fresh(parent) && fresh(rank) && parent.Length == n
      ensures forall x :: 0 <= x < n ==> Roots()[x] == x
    {
      parent := new int[n](i => i);
      rank := new int[n](_ => 0);
      top := 0;
    }

    method Find(start: int) returns (root: int)
      requires Valid() && 0 <= start < parent.Length
      modifies parent
      ensures Valid() && Roots() == old(Roots()) && root == Roots()[start]
    {
      var x := start;
      while parent[x] != x
        invariant Valid() && 0 <= x < parent.Length
        invariant rank[..] == old(rank[..]) && Roots() == old(Roots())
        invariant Root(parent[..], rank[..], top, x) == old(Roots())[start]
        decreases top - rank[x]
      {
        Halve(x);
        x := parent[x];
      }
      root := x;
    }

    method Halve(x: int)
      requires Valid() && 0 <= x < parent.Length
      modifies parent
      ensures Valid() && Roots() == old(Roots()) && parent[x] == old(parent[parent[x]])
      ensures parent[..] == old(parent[..])[x := parent[x]]
    {
      ghost var before := parent[..];
      parent[x] := parent[parent[x]];
      assert parent[..] == before[x := before[before[x]]];
      forall y | 0 <= y < parent.Length
        ensures Valid() && Root(parent[..], rank[..], top, y) == Root(before, rank[..], top, y)
      {
        HalvingKeepsRoots(before, rank[..], top, x, y);
      }
    }

    /** Merges two classes: afterwards the elements of one root are those of both. */
    method Union(a: int, b: int)
      requires Valid() && 0 <= a < parent.Length && 0 <= b < parent.Length
      modifies this, parent, rank
      ensures Valid() && Merged(old(Roots()), Roots(), a, b)
    {
      var rootA := Find(a);
      var rootB := Find(b);
      if rootA == rootB {
        return;
      }
      if rank[rootA] < rank[rootB] {
        Link(rootA, rootB, false);
      } else if rank[rootA] > rank[rootB] {
        Link(rootB, rootA, false);
      } else {
        Link(rootB, rootA, true);
      }
    }

    /** Hangs one root under another, raising the other's rank if asked. */
    method Link(child: int, root: int, raise: bool)
      requires Valid() && 0 <= child < parent.Length && 0 <= root < parent.Length && child != root
      requires parent[child] == child && parent[root] == root
      requires rank[child] < rank[root] || (raise && rank[child] == rank[root])
      modifies this, parent, rank
      ensures Valid()
      ensures forall y :: 0 <= y < parent.Length ==>
        Roots()[y] == if old(Roots())[y] == child then root else old(Roots())[y]
    {
      ghost var before, ranks := parent[..], rank[..];
      parent[child] := root;
      if raise {
        rank[root] := rank[root] + 1;
      }
      assert parent[..] == before[child := root];
      ghost var height := top;
      top := top + 1;
      forall y | 0 <= y < parent.Length
        ensures Valid() && Root(parent[..], rank[..], top, y)
                == if Root(before, ranks, height, y) == child then root else Root(before, ranks, height, y)
      {
        LinkingMovesRoots(before, ranks, height, child, root, rank[..], y);
      }
    }
  }

  /** Two elements share a root afterwards iff they did before, or one was with a and the other with b. */
  ghost predicate Merged(before: seq<int>, after: seq<int>, a: int, b: int)
    requires 0 <= a < |before| && 0 <= b < |before|
  {
    && |after| == |before|
    && forall x, y :: 0 <= x < |before| && 0 <= y < |before| ==>
         (after[x] == after[y] <==>
            || before[x] == before[y]
            || (before[x] == before[a] && before[y] == before[b])
            || (before[x] == before[b] && before[y] == before[a]))
  }
}
