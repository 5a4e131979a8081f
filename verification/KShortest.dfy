/** Yen's k-shortest loopless paths, by masking the shared shortest-path core. */
module KShortest {
  import opened Costs
  import opened Graphs
  import opened YenPaths
  import ShortestPaths

  // ---- dedupe keys

  /** Edge ids are 32-bit. */
  const ID_LIMIT: int := 0x8000_0000

  ghost predicate Ids32(p: seq<int>) {
    forall i :: 0 <= i < |p| ==> -ID_LIMIT <= p[i] < ID_LIMIT
  }

  /** The four low-order bytes of an id, least significant first. */
  function IdBytes(id: int): (b: seq<int>)
    ensures |b| == 4
  {
    [id % 256, id / 256 % 256, id / 0x1_0000 % 256, id / 0x100_0000 % 256]
  }

  function EdgesKey(edges: seq<int>): (key: seq<int>)
    ensures |key| == 4 * |edges|
  {
    if edges == [] then [] else EdgesKey(edges[..|edges| - 1]) + IdBytes(edges[|edges| - 1])
  }

  function BytesValue(b: seq<int>): int
    requires |b| == 4
  {
    b[0] + 256 * b[1] + 0x1_0000 * b[2] + 0x100_0000 * b[3]
  }

  lemma ShiftsCompose(id: int)
    ensures id / 0x1_0000 == id / 256 / 256 && id / 0x100_0000 == id / 256 / 256 / 256
  {
  }

  lemma RemainderIs(n: int, q: int, r: int)
    requires n == 0x1_0000_0000 * q + r && 0 <= r < 0x1_0000_0000
    ensures n % 0x1_0000_0000 == r
  {
  }

  /** The bytes of successive quotients make up the number. */
  lemma BytesAssemble(id: int, q: int, r: int, s: int, t: int, value: int)
    requires q == id / 256 && r == q / 256 && s == r / 256 && t == s / 256
    requires value == id % 256 + 256 * (q % 256) + 0x1_0000 * (r % 256) + 0x100_0000 * (s % 256)
    ensures id == 0x1_0000_0000 * t + value && 0 <= value < 0x1_0000_0000
  {
    assert id == 256 * q + id % 256 && q == 256 * r + q % 256 && r == 256 * s + r % 256 && s == 256 * t + s % 256;
  }

  lemma IdFromBytes(id: int)
    ensures BytesValue(IdBytes(id)) == id % 0x1_0000_0000
  {
    var q := id / 256;
    var r := q / 256;
    var s := r / 256;
    ShiftsCompose(id);
    BytesAssemble(id, q, r, s, s / 256, BytesValue(IdBytes(id)));
    RemainderIs(id, s / 256, BytesValue(IdBytes(id)));
  }

  lemma WrapInjective(a: int, b: int)
    requires -ID_LIMIT <= a < ID_LIMIT && -ID_LIMIT <= b < ID_LIMIT
    requires a % 0x1_0000_0000 == b % 0x1_0000_0000
    ensures a == b
  {
  }

  lemma IdBytesInjective(a: int, b: int)
    requires -ID_LIMIT <= a < ID_LIMIT && -ID_LIMIT <= b < ID_LIMIT && IdBytes(a) == IdBytes(b)
    ensures a == b
  {
    IdFromBytes(a);
    IdFromBytes(b);
    WrapInjective(a, b);
  }

  /** Two id sequences with the same key are equal: no two paths share a dedupe entry. */
  lemma {:induction false} EdgesKeyInjective(p: seq<int>, q: seq<int>)
    requires Ids32(p) && Ids32(q) && EdgesKey(p) == EdgesKey(q)
    ensures p == q
  {
    assert |p| == |q|;
    if p != [] {
      var n := |p| - 1;
      var kp, kq := EdgesKey(p[..n]), EdgesKey(q[..n]);
      assert kp == EdgesKey(p)[..4 * n] && kq == EdgesKey(q)[..4 * n];
      assert IdBytes(p[n]) == EdgesKey(p)[4 * n..] && IdBytes(q[n]) == EdgesKey(q)[4 * n..];
      IdBytesInjective(p[n], q[n]);
      EdgesKeyInjective(p[..n], q[..n]);
      assert p == p[..n] + [p[n]] && q == q[..n] + [q[n]];
    }
  }

  /** The dedupe set holds exactly the keys of the paths accepted or waiting. */
  ghost predicate SeenOk(seen: set<seq<int>>, accepted: seq<KPath>, candidates: set<Candidate>) {
    forall p :: Ids32(p) ==> (EdgesKey(p) in seen <==> IsAccepted(accepted, p) || IsCandidate(candidates, p))
  }

  lemma SeenMore(seen: set<seq<int>>, accepted: seq<KPath>, candidates: set<Candidate>, c: Candidate)
    requires SeenOk(seen, accepted, candidates) && Ids32(c.edges)
    ensures SeenOk(seen + {EdgesKey(c.edges)}, accepted, candidates + {c})
  {
    forall p | Ids32(p)
      ensures EdgesKey(p) in seen + {EdgesKey(c.edges)}
              <==> IsAccepted(accepted, p) || IsCandidate(candidates + {c}, p)
    {
      if EdgesKey(p) == EdgesKey(c.edges) {
        EdgesKeyInjective(p, c.edges);
        assert c in candidates + {c};
      }
      if IsCandidate(candidates, p) {
        var d :| d in candidates && d.edges == p;
        assert d in candidates + {c};
      }
    }
  }

  lemma SeenAccept(seen: set<seq<int>>, accepted: seq<KPath>, candidates: set<Candidate>, best: Candidate)
    requires SeenOk(seen, accepted, candidates) && best in candidates
    requires forall c :: c in candidates && c.edges == best.edges ==> c == best
    ensures SeenOk(seen, accepted + [KPath(best.edges, best.cost)], candidates - {best})
  {
    forall p | Ids32(p)
      ensures EdgesKey(p) in seen <==>
              IsAccepted(accepted + [KPath(best.edges, best.cost)], p) || IsCandidate(candidates - {best}, p)
    {
      AcceptedSnoc(accepted, KPath(best.edges, best.cost), p);
      if p == best.edges {
        assert IsCandidate(candidates, p);
      } else if IsCandidate(candidates, p) {
        var c :| c in candidates && c.edges == p;
        assert c in candidates - {best};
      }
    }
  }

  lemma FeasibleIds(y: Problem, p: seq<int>)
    requires y.Valid() && |y.g.edges| <= ID_LIMIT && y.Feasible(p)
    ensures Ids32(p)
  {
    WalkStaysInside(y.g, y.src, p, y.dst);
  }

  // ---- the candidate heap

  /** Cheaper first, then earlier. */
  predicate Before(a: Candidate, b: Candidate) {
    Less(a.cost, b.cost) || (a.cost == b.cost && a.seqNo <= b.seqNo)
  }

  lemma {:induction false} FirstExists(candidates: set<Candidate>)
    requires candidates != {}
    ensures exists best :: best in candidates && forall c :: c in candidates ==> Before(best, c)
  {
    var some :| some in candidates;
    if candidates != {some} {
      FirstExists(candidates - {some});
      var best :| best in candidates - {some} && forall c :: c in candidates - {some} ==> Before(best, c);
      var first := if Before(best, some) then best else some;
      forall c | c in candidates
        ensures Before(first, c)
      {
        assert c == some || c in candidates - {some};
      }
    }
  }

  /** Every candidate has a number of its own, in the order they were found; `seqNo` is the next. */
  ghost predicate Numbered(candidates: set<Candidate>, seqNo: nat) {
    && (forall c :: c in candidates ==> c.seqNo < seqNo)
    && forall c, d :: c in candidates && d in candidates && c.seqNo == d.seqNo ==> c == d
  }

  /** What was found later has the later numbers. */
  ghost predicate FoundFrom(seqNo: nat, before: set<Candidate>, after: set<Candidate>) {
    before <= after && forall c :: c in after - before ==> c.seqNo >= seqNo
  }

  /** So there is only one candidate to take next. */
  lemma NextIsOnly(candidates: set<Candidate>, seqNo: nat, a: Candidate, b: Candidate)
    requires Numbered(candidates, seqNo) && a in candidates && b in candidates
    requires Before(a, b) && Before(b, a)
    ensures a == b
  {
    LessAsymmetric(a.cost, b.cost);
  }

  lemma LessAsymmetric(a: Cost, b: Cost)
    ensures !(Less(a, b) && Less(b, a)) && !Less(a, a)
  {
  }

  method PopBest(candidates: set<Candidate>) returns (best: Candidate)
    requires candidates != {}
    ensures best in candidates
    ensures forall c :: c in candidates ==>
      Less(best.cost, c.cost) || (best.cost == c.cost && best.seqNo <= c.seqNo)
  {
    FirstExists(candidates);
    best :| best in candidates && forall c :: c in candidates ==> Before(best, c);
  }

  // ---- the search

  /** What k-shortest paths means: the k cheapest loopless paths in order, or all of them. */
  ghost predicate KShortestPathsOf(y: Problem, k: int, paths: seq<KPath>) {
    && (k <= 0 ==> paths == [])
    && (k > 0 ==> |paths| <= k)
    && AcceptedOk(y, paths)
    && Leading(y, paths)
    && (|paths| < k ==> forall p :: y.Feasible(p) ==> IsAccepted(paths, p))
  }

  /** Pushes a path found for the first time, under the next number. */
  method Push(ghost accepted: seq<KPath>, candidates: set<Candidate>, seen: set<seq<int>>, edges: seq<int>, cost: Cost,
              seqNo: nat)
    returns (candidates': set<Candidate>, seen': set<seq<int>>, seqNo': nat)
    requires Ids32(edges) && SeenOk(seen, accepted, candidates) && Numbered(candidates, seqNo)
    ensures SeenOk(seen', accepted, candidates')
    ensures Numbered(candidates', seqNo') && seqNo <= seqNo' && FoundFrom(seqNo, candidates, candidates')
    ensures candidates' == candidates + if EdgesKey(edges) in seen then {} else {Candidate(edges, cost, seqNo)}
  {
    if EdgesKey(edges) in seen {
      return candidates, seen, seqNo;
    }
    candidates' := candidates + {Candidate(edges, cost, seqNo)};
    seen', seqNo' := seen + {EdgesKey(edges)}, seqNo + 1;
    SeenMore(seen, accepted, candidates, Candidate(edges, cost, seqNo));
  }

  /** One spur search along the last accepted path, from the end of its first `spur` edges. */
  method SpurSearch(y: Problem, accepted: seq<KPath>, candidates: set<Candidate>, seen: set<seq<int>>,
                    spur: nat, rootCost: Cost, seqNo: nat, scratch: ShortestPaths.Scratch)
    returns (candidates': set<Candidate>, seen': set<seq<int>>, seqNo': nat)
    requires Inv(y, accepted, candidates, spur) && SeenOk(seen, accepted, candidates)
    requires |y.g.edges| <= ID_LIMIT && spur < |accepted[|accepted| - 1].edges|
    requires rootCost == y.CostOf(accepted[|accepted| - 1].edges[..spur])
    requires Numbered(candidates, seqNo)
    requires scratch.Valid()
    modifies scratch, scratch.dist, scratch.prevEdge
    ensures scratch.Valid()
    ensures (scratch.dist == old(scratch.dist) || fresh(scratch.dist))
         && (scratch.prevEdge == old(scratch.prevEdge) || fresh(scratch.prevEdge))
    ensures Inv(y, accepted, candidates', spur + 1) && SeenOk(seen', accepted, candidates')
    ensures Numbered(candidates', seqNo') && seqNo <= seqNo' && FoundFrom(seqNo, candidates, candidates')
  {
    candidates', seen', seqNo' := candidates, seen, seqNo;
    var prev := accepted[|accepted| - 1].edges;
    WalkEdge(y.g, y.src, prev, y.dst, spur);
    NodeAtSlice(y.g, y.src, prev, spur, spur);
    var spurNode := y.g.edges[prev[spur]].from;
    var root := prev[..spur];
    var masked := MaskedWeight(y.w, Taken(accepted, root), Passed(y.g, y.src, root));
    var spurEdges, spurCost, found, _ := ShortestPaths.Dijkstra(y.g, spurNode, y.dst, masked, scratch);
    if !found {
      WalkStaysInside(y.g, y.src, prev, y.dst);
      NoSpur(y, accepted, candidates, spur);
      return;
    }
    var totalEdges := root + spurEdges;
    var totalCost := Plus(rootCost, spurCost);
    assert BestSpur(y, accepted, root, spurEdges);
    SpurBranches(y, accepted, prev, spur, spurEdges);
    MaskedFinite(y.g, y.w, Taken(accepted, root), Passed(y.g, y.src, root), spurEdges);
    BranchIsNew(y, accepted, root, totalEdges);
    FeasibleIds(y, totalEdges);
    candidates', seen', seqNo' := Push(accepted, candidates, seen, totalEdges, totalCost, seqNo);
    SpurFound(y, accepted, candidates, candidates', spur, spurEdges, seqNo);
  }

  /** All spur searches along the last accepted path, its root cost accumulated edge by edge. */
  method SpurPass(y: Problem, accepted: seq<KPath>, candidates: set<Candidate>, seen: set<seq<int>>,
                  seqNo: nat, scratch: ShortestPaths.Scratch)
    returns (candidates': set<Candidate>, seen': set<seq<int>>, seqNo': nat)
    requires Inv(y, accepted, candidates, 0) && SeenOk(seen, accepted, candidates)
    requires |y.g.edges| <= ID_LIMIT && scratch.Valid() && Numbered(candidates, seqNo)
    modifies scratch, scratch.dist, scratch.prevEdge
    ensures scratch.Valid()
    ensures (scratch.dist == old(scratch.dist) || fresh(scratch.dist))
         && (scratch.prevEdge == old(scratch.prevEdge) || fresh(scratch.prevEdge))
    ensures Inv(y, accepted, candidates', |accepted[|accepted| - 1].edges|)
    ensures SeenOk(seen', accepted, candidates')
    ensures Numbered(candidates', seqNo') && seqNo <= seqNo' && FoundFrom(seqNo, candidates, candidates')
  {
    candidates', seen', seqNo' := candidates, seen, seqNo;
    var prev := accepted[|accepted| - 1].edges;
    var rootCost := ZERO;
    WalkStaysInside(y.g, y.src, prev, y.dst);
    for spur := 0 to |prev|
      invariant Inv(y, accepted, candidates', spur) && SeenOk(seen', accepted, candidates')
      invariant Numbered(candidates', seqNo') && seqNo <= seqNo' && FoundFrom(seqNo, candidates, candidates')
      invariant spur > 0 ==> rootCost == y.CostOf(prev[..spur - 1])
      invariant spur == 0 ==> rootCost == ZERO
      invariant scratch.Valid()
      invariant (scratch.dist == old(scratch.dist) || fresh(scratch.dist))
             && (scratch.prevEdge == old(scratch.prevEdge) || fresh(scratch.prevEdge))
    {
      if spur > 0 {
        CostOfSnoc(y.g, y.w, prev[..spur - 1], prev[spur - 1]);
        assert prev[..spur - 1] + [prev[spur - 1]] == prev[..spur];
        rootCost := Plus(rootCost, y.w(y.g.edges[prev[spur - 1]]));
      }
      candidates', seen', seqNo' :=
        SpurSearch(y, accepted, candidates', seen', spur, rootCost, seqNo', scratch);
    }
  }

  method KShortestPaths(g: Graph, src: int, dst: int, k: int, weight: Weight) returns (accepted: seq<KPath>)
    requires g.Valid() && |g.edges| <= ID_LIMIT
    ensures KShortestPathsOf(Problem(g, weight, src, dst), k, accepted)
  {
    var y := Problem(g, weight, src, dst);
    if k <= 0 || !g.HasNode(src) || !g.HasNode(dst) {
      return [];
    }
    if src == dst {
      LooplessToSelf(y);
      return [KPath([], ZERO)];
    }
    var scratch := new ShortestPaths.Scratch(g.NodeCount());
    var first, firstCost, found, _ := ShortestPaths.Dijkstra(g, src, dst, weight, scratch);
    if !found {
      return [];
    }
    accepted := [KPath(first, firstCost)];
    var candidates: set<Candidate> := {};
    var seen := {EdgesKey(first)};
    var seqNo := 0;
    InvInitially(y, accepted[0]);
    SeenInitially(y, accepted[0]);
    while |accepted| < k
      invariant 0 < |accepted| <= k
      invariant Inv(y, accepted, candidates, 0) && SeenOk(seen, accepted, candidates)
      invariant Numbered(candidates, seqNo)
      invariant scratch.Valid() && fresh(scratch) && fresh(scratch.dist) && fresh(scratch.prevEdge)
      decreases k - |accepted|
    {
      candidates, seen, seqNo := SpurPass(y, accepted, candidates, seen, seqNo, scratch);
      if candidates == {} {
        forall p | y.Feasible(p)
          ensures IsAccepted(accepted, p)
        {
          if !IsAccepted(accepted, p) {
            SomeCandidateBeats(y, accepted, candidates, p);
            assert false;
          }
        }
        return;
      }
      var best := PopBest(candidates);
      SeenAccept(seen, accepted, candidates, best);
      Accept(y, accepted, candidates, best);
      candidates := candidates - {best};
      accepted := accepted + [KPath(best.edges, best.cost)];
    }
  }

  /** The only loopless path from a node to itself is the empty one. */
  lemma LooplessToSelf(y: Problem)
    requires y.g.HasNode(y.src) && y.src == y.dst
    ensures forall p :: y.Feasible(p) <==> p == []
    ensures KShortestPathsOf(y, 1, [KPath([], ZERO)])
    ensures forall k :: k > 0 ==> KShortestPathsOf(y, k, [KPath([], ZERO)])
  {
    forall p
      ensures y.Feasible(p) <==> p == []
    {
      assert NodeAt(y.g, y.src, p, 0) == y.src;
    }
    assert IsAccepted([KPath([], ZERO)], []) by {
      assert [KPath([], ZERO)][0].edges == [];
    }
  }

  lemma SeenInitially(y: Problem, first: KPath)
    requires y.Valid() && |y.g.edges| <= ID_LIMIT && y.Feasible(first.edges)
    ensures SeenOk({EdgesKey(first.edges)}, [first], {})
  {
    FeasibleIds(y, first.edges);
    forall p | Ids32(p)
      ensures EdgesKey(p) in {EdgesKey(first.edges)} <==> IsAccepted([first], p)
    {
      assert [first][0] == first;
      if EdgesKey(p) == EdgesKey(first.edges) {
        EdgesKeyInjective(p, first.edges);
      }
    }
  }
}
