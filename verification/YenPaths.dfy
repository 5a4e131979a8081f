/**
 Yen's search as values: loopless paths, masks, and the invariant that the candidate
 set holds, for every way of branching off the accepted paths, a best such path.
 */
module YenPaths {
  import opened Costs
  import opened Graphs

  datatype Problem = Problem(g: Graph, w: Weight, src: int, dst: int) {
    ghost predicate Valid() {
      g.Valid() && g.HasNode(src) && g.HasNode(dst) && src != dst
    }

    ghost function CostOf(p: seq<int>): Cost { PathCost(g, w, p) }

    /** p is a loopless path from src to dst of finite cost. */
    ghost predicate Feasible(p: seq<int>) {
      g.HasNode(src) && g.HasNode(dst) && IsPath(g, src, p, dst) && CostOf(p).Fin?
    }
  }

  datatype KPath = KPath(edges: seq<int>, cost: Cost)

  datatype Candidate = Candidate(edges: seq<int>, cost: Cost, seqNo: nat)

  predicate SameRoot(path: seq<int>, root: seq<int>) {
    |path| >= |root| && path[..|root|] == root
  }

  /** Removed edges, and the out-edges of removed nodes, cost +Inf. */
  function MaskedWeight(base: Weight, edges: set<int>, nodes: set<int>): Weight {
    (e: Edge) => if e.id in edges || e.from in nodes then Inf else base(e)
  }

  /** The edges by which the accepted paths leave `root`. */
  function Taken(accepted: seq<KPath>, root: seq<int>): set<int> {
    set i | 0 <= i < |accepted| && SameRoot(accepted[i].edges, root) && |root| < |accepted[i].edges|
      :: accepted[i].edges[|root|]
  }

  /** The nodes `root` passes through before its end. */
  function Passed(g: Graph, start: int, root: seq<int>): set<int> {
    set j | 0 <= j < |root| :: NodeAt(g, start, root, j)
  }

  /** p is a feasible path that follows `root` and then leaves every accepted path. */
  ghost predicate Branches(y: Problem, accepted: seq<KPath>, root: seq<int>, p: seq<int>) {
    y.Feasible(p) && SameRoot(p, root) && |root| < |p| && p[|root|] !in Taken(accepted, root)
  }

  ghost predicate IsAccepted(accepted: seq<KPath>, p: seq<int>) {
    exists i :: 0 <= i < |accepted| && accepted[i].edges == p
  }

  /** Some candidate branching off `root` is at least as good as p. */
  ghost predicate Beaten(y: Problem, accepted: seq<KPath>, candidates: set<Candidate>, root: seq<int>, p: seq<int>) {
    exists c :: c in candidates && Branches(y, accepted, root, c.edges) && Leq(c.cost, y.CostOf(p))
  }

  ghost predicate Covered(y: Problem, accepted: seq<KPath>, candidates: set<Candidate>, root: seq<int>) {
    forall p :: Branches(y, accepted, root, p) ==> Beaten(y, accepted, candidates, root, p)
  }

  ghost predicate AcceptedOk(y: Problem, accepted: seq<KPath>) {
    && (forall i :: 0 <= i < |accepted| ==>
          y.Feasible(accepted[i].edges) && accepted[i].cost == y.CostOf(accepted[i].edges))
    && (forall i, j :: 0 <= i < j < |accepted| ==>
          accepted[i].edges != accepted[j].edges && Leq(accepted[i].cost, accepted[j].cost))
  }

  /** Every feasible path not accepted costs at least as much as every accepted one. */
  ghost predicate Leading(y: Problem, accepted: seq<KPath>) {
    forall p, i :: y.Feasible(p) && !IsAccepted(accepted, p) && 0 <= i < |accepted| ==>
      Leq(accepted[i].cost, y.CostOf(p))
  }

  ghost predicate CandidatesOk(y: Problem, accepted: seq<KPath>, candidates: set<Candidate>) {
    && (forall c :: c in candidates ==>
          y.Feasible(c.edges) && c.cost == y.CostOf(c.edges) && !IsAccepted(accepted, c.edges))
    && (forall c, d :: c in candidates && d in candidates && c.edges == d.edges ==> c == d)
  }

  /** All roots are covered except, on the last accepted path, those of length `spur` or more. */
  ghost predicate CoveredBut(y: Problem, accepted: seq<KPath>, candidates: set<Candidate>, spur: nat)
    requires |accepted| > 0
  {
    forall a, i :: 0 <= a < |accepted| && 0 <= i < |accepted[a].edges| ==>
      var root := accepted[a].edges[..i];
      i < spur || !SameRoot(accepted[|accepted| - 1].edges, root) ==>
        Covered(y, accepted, candidates, root)
  }

  // ---- masks

  lemma {:induction false} MaskedFinite(g: Graph, w: Weight, edges: set<int>, nodes: set<int>, p: seq<int>)
    requires g.Valid() && PathCost(g, MaskedWeight(w, edges, nodes), p).Fin?
    ensures PathCost(g, MaskedWeight(w, edges, nodes), p) == PathCost(g, w, p)
    ensures forall i :: 0 <= i < |p| ==>
      g.HasEdge(p[i]) && p[i] !in edges && g.edges[p[i]].from !in nodes
  {
    if p != [] {
      MaskedFinite(g, w, edges, nodes, p[..|p| - 1]);
    }
  }

  lemma {:induction false} MaskedUntouched(g: Graph, w: Weight, edges: set<int>, nodes: set<int>, p: seq<int>)
    requires g.Valid() && forall i :: 0 <= i < |p| ==>
      g.HasEdge(p[i]) && p[i] !in edges && g.edges[p[i]].from !in nodes
    ensures PathCost(g, MaskedWeight(w, edges, nodes), p) == PathCost(g, w, p)
  {
    if p != [] {
      MaskedUntouched(g, w, edges, nodes, p[..|p| - 1]);
    }
  }

  // ---- branching off the accepted paths

  /** Two loopless paths to the same node: neither is a proper prefix of the other. */
  lemma NoProperPrefix(y: Problem, p: seq<int>, q: seq<int>)
    requires y.Feasible(p) && y.Feasible(q) && SameRoot(q, p)
    ensures p == q
  {
    assert NodeAt(y.g, y.src, q, |p|) == NodeAt(y.g, y.src, p, |p|) == NodeAt(y.g, y.src, q, |q|);
  }

  /** A feasible path that is not accepted branches off some accepted path. */
  lemma {:induction false} FindBranch(y: Problem, accepted: seq<KPath>, p: seq<int>, a: nat, i: nat)
    returns (a': nat, i': nat)
    requires AcceptedOk(y, accepted) && y.Feasible(p) && !IsAccepted(accepted, p)
    requires a < |accepted| && i < |accepted[a].edges| && SameRoot(p, accepted[a].edges[..i])
    ensures a' < |accepted| && i' < |accepted[a'].edges|
    ensures Branches(y, accepted, accepted[a'].edges[..i'], p)
    decreases |p| - i
  {
    NotYetAtEnd(y, accepted, p, a, i);
    if p[i] !in Taken(accepted, accepted[a].edges[..i]) {
      return a, i;
    }
    var b := TakenBy(accepted, p, accepted[a].edges[..i]);
    if i + 1 == |accepted[b].edges| {
      NoProperPrefix(y, accepted[b].edges, p);
      assert false;
    } else {
      a', i' := FindBranch(y, accepted, p, b, i + 1);
    }
  }

  /** A path that is not accepted goes on past every root it shares. */
  lemma NotYetAtEnd(y: Problem, accepted: seq<KPath>, p: seq<int>, a: nat, i: nat)
    requires AcceptedOk(y, accepted) && y.Feasible(p) && !IsAccepted(accepted, p)
    requires a < |accepted| && i < |accepted[a].edges| && SameRoot(p, accepted[a].edges[..i])
    ensures i < |p|
  {
    if i == |p| {
      NoProperPrefix(y, p, accepted[a].edges);
    }
  }

  /** An accepted path that takes the next edge shares one more. */
  lemma TakenBy(accepted: seq<KPath>, p: seq<int>, root: seq<int>) returns (b: nat)
    requires SameRoot(p, root) && |root| < |p| && p[|root|] in Taken(accepted, root)
    ensures b < |accepted| && |root| < |accepted[b].edges| && SameRoot(p, accepted[b].edges[..|root| + 1])
  {
    b :| 0 <= b < |accepted| && SameRoot(accepted[b].edges, root)
         && |root| < |accepted[b].edges| && accepted[b].edges[|root|] == p[|root|];
    assert accepted[b].edges[..|root| + 1] == root + [p[|root|]] == p[..|root| + 1];
  }

  /** With every root covered, each feasible path not accepted is matched by a candidate. */
  lemma SomeCandidateBeats(y: Problem, accepted: seq<KPath>, candidates: set<Candidate>, p: seq<int>)
    requires y.Valid() && |accepted| > 0 && AcceptedOk(y, accepted)
    requires CoveredBut(y, accepted, candidates, |accepted[|accepted| - 1].edges|)
    requires y.Feasible(p) && !IsAccepted(accepted, p)
    ensures exists c :: c in candidates && Leq(c.cost, y.CostOf(p))
  {
    assert NodeAt(y.g, y.src, accepted[0].edges, 0) == y.src;
    var a, i := FindBranch(y, accepted, p, 0, 0);
    var root := accepted[a].edges[..i];
    if SameRoot(accepted[|accepted| - 1].edges, root) && i >= |accepted[|accepted| - 1].edges| {
      assert root == accepted[|accepted| - 1].edges;
      NoProperPrefix(y, root, accepted[a].edges);
    }
    assert Covered(y, accepted, candidates, root);
    assert Beaten(y, accepted, candidates, root, p);
  }

  // ---- one spur search

  /** The masked search from the end of `root` sees exactly the tails of the paths branching there. */
  lemma TailSurvivesMask(y: Problem, accepted: seq<KPath>, root: seq<int>, p: seq<int>)
    requires y.Valid() && AcceptedOk(y, accepted) && Branches(y, accepted, root, p)
    ensures IsWalk(y.g, NodeAt(y.g, y.src, root, |root|), p[|root|..], y.dst)
    ensures PathCost(y.g, MaskedWeight(y.w, Taken(accepted, root), Passed(y.g, y.src, root)), p[|root|..])
            == PathCost(y.g, y.w, p[|root|..])
    ensures y.CostOf(p) == Plus(y.CostOf(root), y.CostOf(p[|root|..]))
  {
    var n := |root|;
    var tail := p[n..];
    WalkSplit(y.g, y.src, p, y.dst, n);
    CostOfSplit(y.g, y.w, p, n);
    NodeAtSlice(y.g, y.src, p, n, n);
    forall t | 0 <= t < |tail|
      ensures y.g.HasEdge(tail[t]) && tail[t] !in Taken(accepted, root)
      ensures y.g.edges[tail[t]].from !in Passed(y.g, y.src, root)
    {
      TailEdgeUnmasked(y, accepted, root, p, n + t);
    }
    MaskedUntouched(y.g, y.w, Taken(accepted, root), Passed(y.g, y.src, root), tail);
  }

  lemma TailEdgeUnmasked(y: Problem, accepted: seq<KPath>, root: seq<int>, p: seq<int>, t: nat)
    requires y.Valid() && AcceptedOk(y, accepted) && Branches(y, accepted, root, p) && |root| <= t < |p|
    ensures y.g.HasEdge(p[t]) && p[t] !in Taken(accepted, root)
    ensures y.g.edges[p[t]].from !in Passed(y.g, y.src, root)
  {
    var n := |root|;
    WalkEdge(y.g, y.src, p, y.dst, t);
    forall j | 0 <= j <= n
      ensures NodeAt(y.g, y.src, root, j) == NodeAt(y.g, y.src, p, j)
    {
      NodeAtSlice(y.g, y.src, p, n, j);
    }
    if t > n && p[t] in Taken(accepted, root) {
      var i :| 0 <= i < |accepted| && SameRoot(accepted[i].edges, root)
               && n < |accepted[i].edges| && accepted[i].edges[n] == p[t];
      NodeAtSlice(y.g, y.src, accepted[i].edges, n, n);
      assert false;
    }
  }

  /** A root of an accepted path followed by a masked spur path is a new feasible path. */
  lemma SpurBranches(y: Problem, accepted: seq<KPath>, prev: seq<int>, i: nat, spur: seq<int>)
    requires y.Valid() && AcceptedOk(y, accepted) && y.Feasible(prev) && i < |prev|
    requires var root := prev[..i];
      && IsPath(y.g, NodeAt(y.g, y.src, root, i), spur, y.dst)
      && PathCost(y.g, MaskedWeight(y.w, Taken(accepted, root), Passed(y.g, y.src, root)), spur).Fin?
    ensures Branches(y, accepted, prev[..i], prev[..i] + spur)
    ensures y.CostOf(prev[..i] + spur) == Plus(y.CostOf(prev[..i]), y.CostOf(spur))
  {
    var root := prev[..i];
    var mid := NodeAt(y.g, y.src, root, i);
    MaskedFinite(y.g, y.w, Taken(accepted, root), Passed(y.g, y.src, root), spur);
    WalkSplit(y.g, y.src, prev, y.dst, i);
    CostOfSplit(y.g, y.w, prev, i);
    CostOfConcat(y.g, y.w, root, spur);
    WalkConcat(y.g, y.src, root, mid, spur, y.dst);
    NodeAtSlice(y.g, y.src, prev, i, i);
    forall a, b | 0 <= a < b <= |root + spur|
      ensures NodeAt(y.g, y.src, root + spur, a) != NodeAt(y.g, y.src, root + spur, b)
    {
      SpurAvoidsRoot(y, accepted, prev, i, spur, a, b);
    }
    assert (root + spur)[..i] == root;
  }

  lemma SpurAvoidsRoot(y: Problem, accepted: seq<KPath>, prev: seq<int>, i: nat, spur: seq<int>, a: nat, b: nat)
    requires y.Valid() && y.Feasible(prev) && i < |prev|
    requires IsPath(y.g, NodeAt(y.g, y.src, prev[..i], i), spur, y.dst)
    requires forall t :: 0 <= t < |spur| ==>
      y.g.HasEdge(spur[t]) && y.g.edges[spur[t]].from !in Passed(y.g, y.src, prev[..i])
    requires a < b <= i + |spur|
    ensures NodeAt(y.g, y.src, prev[..i] + spur, a) != NodeAt(y.g, y.src, prev[..i] + spur, b)
  {
    var root := prev[..i];
    var mid := NodeAt(y.g, y.src, root, i);
    NodeAtConcat(y.g, y.src, root, mid, spur, a);
    NodeAtConcat(y.g, y.src, root, mid, spur, b);
    if a >= i {
      assert NodeAt(y.g, mid, spur, a - i) != NodeAt(y.g, mid, spur, b - i);
    } else {
      NodeAtSlice(y.g, y.src, prev, i, a);
      assert NodeAt(y.g, y.src, prev, a) in Passed(y.g, y.src, root);
      if b <= i {
        NodeAtSlice(y.g, y.src, prev, i, b);
        assert NodeAt(y.g, y.src, prev, a) != NodeAt(y.g, y.src, prev, b);
      } else if b == i + |spur| {
        assert NodeAt(y.g, y.src, prev, a) != NodeAt(y.g, y.src, prev, |prev|);
      } else {
        WalkEdge(y.g, mid, spur, y.dst, b - i);
      }
    }
  }

  // ---- the search state between spur searches

  ghost predicate Inv(y: Problem, accepted: seq<KPath>, candidates: set<Candidate>, spur: nat) {
    && y.Valid() && |accepted| > 0
    && AcceptedOk(y, accepted) && Leading(y, accepted)
    && CandidatesOk(y, accepted, candidates)
    && CoveredBut(y, accepted, candidates, spur)
  }

  ghost predicate IsCandidate(candidates: set<Candidate>, p: seq<int>) {
    exists c :: c in candidates && c.edges == p
  }

  /** With only the shortest path accepted, every root still has to be covered. */
  lemma InvInitially(y: Problem, first: KPath)
    requires y.Valid() && y.Feasible(first.edges) && first.cost == y.CostOf(first.edges)
    requires forall p :: y.Feasible(p) ==> Leq(first.cost, y.CostOf(p))
    ensures Inv(y, [first], {}, 0)
  {
  }

  /** A root stays covered while its taken edges do not change and its candidates are kept. */
  lemma StaysCovered(y: Problem, accepted: seq<KPath>, candidates: set<Candidate>,
                     accepted': seq<KPath>, candidates': set<Candidate>, root: seq<int>)
    requires Covered(y, accepted, candidates, root) && Taken(accepted', root) == Taken(accepted, root)
    requires forall c :: c in candidates && SameRoot(c.edges, root) ==> c in candidates'
    ensures Covered(y, accepted', candidates', root)
  {
    forall p | Branches(y, accepted', root, p)
      ensures Beaten(y, accepted', candidates', root, p)
    {
      BeatenStill(y, accepted, candidates, accepted', candidates', root, p);
    }
  }

  lemma BeatenStill(y: Problem, accepted: seq<KPath>, candidates: set<Candidate>,
                    accepted': seq<KPath>, candidates': set<Candidate>, root: seq<int>, p: seq<int>)
    requires Covered(y, accepted, candidates, root) && Taken(accepted', root) == Taken(accepted, root)
    requires forall c :: c in candidates && SameRoot(c.edges, root) ==> c in candidates'
    requires Branches(y, accepted', root, p)
    ensures Beaten(y, accepted', candidates', root, p)
  {
    BranchesAgree(y, accepted, accepted', root, p);
    assert Beaten(y, accepted, candidates, root, p);
    var c :| c in candidates && Branches(y, accepted, root, c.edges) && Leq(c.cost, y.CostOf(p));
    BranchesAgree(y, accepted, accepted', root, c.edges);
  }

  lemma BranchesAgree(y: Problem, accepted: seq<KPath>, accepted': seq<KPath>, root: seq<int>, p: seq<int>)
    requires Taken(accepted', root) == Taken(accepted, root)
    ensures Branches(y, accepted, root, p) <==> Branches(y, accepted', root, p)
    ensures Branches(y, accepted, root, p) ==> SameRoot(p, root)
  {
  }

  lemma NextSpur(y: Problem, accepted: seq<KPath>, candidates: set<Candidate>, more: set<Candidate>, spur: nat)
    requires |accepted| > 0 && spur < |accepted[|accepted| - 1].edges|
    requires CoveredBut(y, accepted, candidates, spur) && candidates <= more
    requires Covered(y, accepted, more, accepted[|accepted| - 1].edges[..spur])
    ensures CoveredBut(y, accepted, more, spur + 1)
  {
    var prev := accepted[|accepted| - 1].edges;
    forall a, i | 0 <= a < |accepted| && 0 <= i < |accepted[a].edges|
                  && (i < spur + 1 || !SameRoot(prev, accepted[a].edges[..i]))
      ensures Covered(y, accepted, more, accepted[a].edges[..i])
    {
      var root := accepted[a].edges[..i];
      if i < spur || !SameRoot(prev, root) {
        StaysCovered(y, accepted, candidates, accepted, more, root);
      } else {
        assert root == prev[..spur];
      }
    }
  }

  /** A spur search that finds nothing shows that no path branches off its root. */
  lemma NoSpur(y: Problem, accepted: seq<KPath>, candidates: set<Candidate>, spur: nat)
    requires Inv(y, accepted, candidates, spur) && spur < |accepted[|accepted| - 1].edges|
    requires var root := accepted[|accepted| - 1].edges[..spur];
      forall q :: IsWalk(y.g, NodeAt(y.g, y.src, root, spur), q, y.dst) ==>
        PathCost(y.g, MaskedWeight(y.w, Taken(accepted, root), Passed(y.g, y.src, root)), q).Inf?
    ensures Inv(y, accepted, candidates, spur + 1)
  {
    var root := accepted[|accepted| - 1].edges[..spur];
    forall p
      ensures !Branches(y, accepted, root, p)
    {
      if Branches(y, accepted, root, p) {
        TailSurvivesMask(y, accepted, root, p);
        CostOfSplit(y.g, y.w, p, spur);
        assert false;
      }
    }
    NextSpur(y, accepted, candidates, candidates, spur);
  }

  /** What a successful spur search returned: a best masked path from the end of the root. */
  ghost predicate BestSpur(y: Problem, accepted: seq<KPath>, root: seq<int>, q: seq<int>) {
    var mid := NodeAt(y.g, y.src, root, |root|);
    var masked := MaskedWeight(y.w, Taken(accepted, root), Passed(y.g, y.src, root));
    && IsPath(y.g, mid, q, y.dst) && PathCost(y.g, masked, q).Fin?
    && forall r :: IsWalk(y.g, mid, r, y.dst) ==> Leq(PathCost(y.g, masked, q), PathCost(y.g, masked, r))
  }

  /** The root followed by a best spur path is at least as good as every path branching there. */
  lemma BestSpurBeats(y: Problem, accepted: seq<KPath>, spur: nat, q: seq<int>, p: seq<int>)
    requires y.Valid() && AcceptedOk(y, accepted) && |accepted| > 0
    requires spur < |accepted[|accepted| - 1].edges|
    requires BestSpur(y, accepted, accepted[|accepted| - 1].edges[..spur], q)
    requires Branches(y, accepted, accepted[|accepted| - 1].edges[..spur], p)
    ensures Leq(y.CostOf(accepted[|accepted| - 1].edges[..spur] + q), y.CostOf(p))
  {
    var root := accepted[|accepted| - 1].edges[..spur];
    SpurBranches(y, accepted, accepted[|accepted| - 1].edges, spur, q);
    TailSurvivesMask(y, accepted, root, p);
    MaskedFinite(y.g, y.w, Taken(accepted, root), Passed(y.g, y.src, root), q);
  }

  /** The new deviation differs from every accepted path. */
  lemma BranchIsNew(y: Problem, accepted: seq<KPath>, root: seq<int>, p: seq<int>)
    requires Branches(y, accepted, root, p)
    ensures !IsAccepted(accepted, p)
  {
  }

  /** After a spur search its deviation is a candidate, newly pushed or found earlier. */
  lemma SpurFound(y: Problem, accepted: seq<KPath>, candidates: set<Candidate>, more: set<Candidate>,
                  spur: nat, q: seq<int>, seqNo: nat)
    requires Inv(y, accepted, candidates, spur) && spur < |accepted[|accepted| - 1].edges|
    requires BestSpur(y, accepted, accepted[|accepted| - 1].edges[..spur], q)
    requires var total := accepted[|accepted| - 1].edges[..spur] + q;
      more == if IsCandidate(candidates, total) then candidates
              else candidates + {Candidate(total, y.CostOf(total), seqNo)}
    ensures Inv(y, accepted, more, spur + 1)
  {
    var prev := accepted[|accepted| - 1].edges;
    var root, total := prev[..spur], prev[..spur] + q;
    SpurBranches(y, accepted, prev, spur, q);
    BranchIsNew(y, accepted, root, total);
    MoreCandidatesOk(y, accepted, candidates, more, total, seqNo);
    forall p | Branches(y, accepted, root, p)
      ensures Beaten(y, accepted, more, root, p)
    {
      BestSpurBeats(y, accepted, spur, q, p);
      TotalBeats(y, accepted, more, root, total, p);
    }
    NextSpur(y, accepted, candidates, more, spur);
  }

  lemma MoreCandidatesOk(y: Problem, accepted: seq<KPath>, candidates: set<Candidate>, more: set<Candidate>,
                         total: seq<int>, seqNo: nat)
    requires CandidatesOk(y, accepted, candidates) && y.Feasible(total) && !IsAccepted(accepted, total)
    requires more == if IsCandidate(candidates, total) then candidates
                     else candidates + {Candidate(total, y.CostOf(total), seqNo)}
    ensures CandidatesOk(y, accepted, more) && candidates <= more && IsCandidate(more, total)
  {
    if !IsCandidate(candidates, total) {
      assert Candidate(total, y.CostOf(total), seqNo) in more;
    }
  }

  lemma TotalBeats(y: Problem, accepted: seq<KPath>, candidates: set<Candidate>, root: seq<int>,
                   total: seq<int>, p: seq<int>)
    requires CandidatesOk(y, accepted, candidates) && IsCandidate(candidates, total)
    requires Branches(y, accepted, root, total) && Leq(y.CostOf(total), y.CostOf(p))
    ensures Beaten(y, accepted, candidates, root, p)
  {
    var c :| c in candidates && c.edges == total;
  }

  /** A cheapest candidate extends the accepted paths in order: nothing left out is cheaper. */
  lemma BestLeads(y: Problem, accepted: seq<KPath>, candidates: set<Candidate>, best: Candidate)
    requires |accepted| > 0 && Inv(y, accepted, candidates, |accepted[|accepted| - 1].edges|)
    requires best in candidates && forall c :: c in candidates ==> Leq(best.cost, c.cost)
    ensures AcceptedOk(y, accepted + [KPath(best.edges, best.cost)])
    ensures Leading(y, accepted + [KPath(best.edges, best.cost)])
    ensures CandidatesOk(y, accepted + [KPath(best.edges, best.cost)], candidates - {best})
  {
    var accepted' := accepted + [KPath(best.edges, best.cost)];
    forall p
      ensures IsAccepted(accepted', p) <==> IsAccepted(accepted, p) || p == best.edges
    {
      AcceptedSnoc(accepted, KPath(best.edges, best.cost), p);
    }
    forall p | y.Feasible(p) && !IsAccepted(accepted, p)
      ensures Leq(best.cost, y.CostOf(p))
    {
      SomeCandidateBeats(y, accepted, candidates, p);
    }
  }

  /** A root the accepted candidate does not share stays covered. */
  lemma OtherRootCovered(y: Problem, accepted: seq<KPath>, candidates: set<Candidate>, best: Candidate, a: nat, i: nat)
    requires |accepted| > 0 && Inv(y, accepted, candidates, |accepted[|accepted| - 1].edges|)
    requires a < |accepted| && i < |accepted[a].edges| && !SameRoot(best.edges, accepted[a].edges[..i])
    ensures Covered(y, accepted + [KPath(best.edges, best.cost)], candidates - {best}, accepted[a].edges[..i])
  {
    var root, last := accepted[a].edges[..i], accepted[|accepted| - 1].edges;
    if i >= |last| && SameRoot(last, root) {
      assert root == last;
      NoProperPrefix(y, root, accepted[a].edges);
    }
    TakenSnoc(accepted, KPath(best.edges, best.cost), root);
    StaysCovered(y, accepted, candidates, accepted + [KPath(best.edges, best.cost)], candidates - {best}, root);
  }

  /** Accepting the best candidate: what it leaves uncovered lies on its own roots. */
  lemma Accept(y: Problem, accepted: seq<KPath>, candidates: set<Candidate>, best: Candidate)
    requires |accepted| > 0 && Inv(y, accepted, candidates, |accepted[|accepted| - 1].edges|)
    requires best in candidates && forall c :: c in candidates ==> Leq(best.cost, c.cost)
    ensures Inv(y, accepted + [KPath(best.edges, best.cost)], candidates - {best}, 0)
  {
    var accepted' := accepted + [KPath(best.edges, best.cost)];
    BestLeads(y, accepted, candidates, best);
    forall a, i | 0 <= a < |accepted'| && 0 <= i < |accepted'[a].edges|
                  && !SameRoot(best.edges, accepted'[a].edges[..i])
      ensures Covered(y, accepted', candidates - {best}, accepted'[a].edges[..i])
    {
      assert a < |accepted|;
      OtherRootCovered(y, accepted, candidates, best, a, i);
    }
  }

  lemma AcceptedSnoc(accepted: seq<KPath>, last: KPath, p: seq<int>)
    ensures IsAccepted(accepted + [last], p) <==> IsAccepted(accepted, p) || p == last.edges
  {
    var accepted' := accepted + [last];
    assert accepted'[|accepted|] == last;
    assert forall i :: 0 <= i < |accepted| ==> accepted'[i] == accepted[i];
  }

  lemma TakenSnoc(accepted: seq<KPath>, last: KPath, root: seq<int>)
    requires !SameRoot(last.edges, root)
    ensures Taken(accepted + [last], root) == Taken(accepted, root)
  {
    var accepted' := accepted + [last];
    assert forall i :: 0 <= i < |accepted| ==> accepted'[i] == accepted[i];
  }
}
