/** The server half of the live stream: bucketing, frames, and the replay state. */
module Stream {
  import opened Results
  import opened Sets
  import opened Frames

  const VC_BUCKET_COUNT := 24
  const VC_BUCKET_WIDTH := 0.1
  const BUCKET_EPSILON := 0.000000001

  function BucketOf(vc: real): int {
    if vc <= 0.0 then 0
    else
      var b := (vc / VC_BUCKET_WIDTH + BUCKET_EPSILON).Floor;
      if b >= VC_BUCKET_COUNT then VC_BUCKET_COUNT - 1 else b
  }

  /** Bucket b of 24 is a band of width 0.1, its edges lowered by a ten-billionth; the last has no upper edge. */
  ghost predicate InBand(vc: real, b: int) {
    if vc <= 0.0 then b == 0
    else
      && 0 <= b <= 23 && b as real * 0.1 <= vc + 0.0000000001
      && (b < 23 ==> vc + 0.0000000001 < (b as real + 1.0) * 0.1)
  }

  /** Every ratio lies in exactly one band, and that is its bucket. */
  lemma BucketIsBand(vc: real, b: int)
    ensures InBand(vc, b) <==> b == BucketOf(vc)
  {
  }

  lemma BucketMonotone(a: real, b: real)
    requires a <= b
    ensures BucketOf(a) <= BucketOf(b)
  {
  }

  datatype AlgoTick = AlgoTick(algo: Algo, tick: nat, simTime: real, vc: seq<real>, metrics: Metrics)

  function VcAt(vc: seq<real>, edge: int): real {
    if 0 <= edge < |vc| then vc[edge] else 0.0
  }

  /** Which segment each edge is; distinct edges are distinct segments. */
  type SegmentIndex = map<int, string>

  ghost predicate Injective(segs: SegmentIndex) {
    forall d, e :: d in segs && e in segs && segs[d] == segs[e] ==> d == e
  }

  function Entry(segs: SegmentIndex, vc: seq<real>, e: int): SegmentVC
    requires e in segs
  {
    SegmentVC(segs[e], VcAt(vc, e), BucketOf(VcAt(vc, e)))
  }

  /** The full bucketed state of one tick. */
  ghost function Bucketed(segs: SegmentIndex, vc: seq<real>): (m: BucketMap)
    requires Injective(segs)
    ensures forall e :: e in segs ==> segs[e] in m && m[segs[e]] == BucketOf(VcAt(vc, e))
    ensures m.Keys == Segments(segs, segs.Keys)
  {
    map e | e in segs :: segs[e] := BucketOf(VcAt(vc, e))
  }

  /** The entries of the edges in `edges` whose bucket differs from the last one sent. */
  ghost function ChangedEntries(segs: SegmentIndex, edges: set<int>, last: BucketMap, vc: seq<real>): set<SegmentVC>
    requires edges <= segs.Keys
  {
    set e | e in edges && (segs[e] !in last || last[segs[e]] != BucketOf(VcAt(vc, e))) :: Entry(segs, vc, e)
  }

  ghost predicate IsSnapshot(segs: SegmentIndex, algo: Algo, ticks: seq<AlgoTick>, f: Frame) {
    && f.Snapshot? && f.algo == algo
    && if ticks == [] then f.segments == []
       else Lists(f.segments, ChangedEntries(segs, segs.Keys, map[], ticks[0].vc))
            && f.tick == ticks[0].tick && f.simTime == ticks[0].simTime && f.metrics == ticks[0].metrics
  }

  /** A delta from the last sent buckets to a tick: exactly the segments whose bucket changed. */
  ghost predicate IsDelta(segs: SegmentIndex, last: BucketMap, tick: AlgoTick, algo: Algo, f: Frame) {
    && f.Delta? && f.algo == algo && f.tick == tick.tick && f.simTime == tick.simTime && f.metrics == tick.metrics
    && Lists(f.changed, ChangedEntries(segs, segs.Keys, last, tick.vc))
  }

  ghost function Segments(segs: SegmentIndex, edges: set<int>): set<string>
    requires edges <= segs.Keys
  {
    set e | e in edges :: segs[e]
  }

  /** `now` is `last` with the segments of these edges brought up to date. */
  ghost predicate UpdatedOver(segs: SegmentIndex, edges: set<int>, last: BucketMap, vc: seq<real>, now: BucketMap)
    requires edges <= segs.Keys
  {
    && now.Keys == last.Keys + Segments(segs, edges)
    && (forall e :: e in edges ==> segs[e] in now && now[segs[e]] == BucketOf(VcAt(vc, e)))
    && forall k :: k in last && k !in Segments(segs, edges) ==> k in now && now[k] == last[k]
  }

  lemma UpdateStep(segs: SegmentIndex, edges: set<int>, last: BucketMap, vc: seq<real>, now: BucketMap, e: int)
    requires Injective(segs) && edges <= segs.Keys && e in segs && e !in edges
    requires UpdatedOver(segs, edges, last, vc, now)
    ensures UpdatedOver(segs, edges + {e}, last, vc, now[segs[e] := BucketOf(VcAt(vc, e))])
    ensures (segs[e] in now <==> segs[e] in last) && (segs[e] in last ==> now[segs[e]] == last[segs[e]])
  {
    assert Segments(segs, edges + {e}) == Segments(segs, edges) + {segs[e]};
    assert segs[e] !in Segments(segs, edges);
  }

  /** No id twice, in whatever order. */
  ghost predicate DistinctIds(list: seq<SegmentVC>) {
    forall i, j :: 0 <= i < j < |list| ==> list[i].segment != list[j].segment
  }

  method SortById(list: seq<SegmentVC>) returns (sorted: seq<SegmentVC>)
    requires DistinctIds(list)
    ensures InIdOrder(sorted) && forall x :: x in sorted <==> x in list
  {
    sorted := [];
    for n := 0 to |list|
      invariant InIdOrder(sorted) && forall x :: x in sorted <==> x in list[..n]
    {
      forall i | 0 <= i < |sorted|
        ensures sorted[i].segment != list[n].segment
      {
        assert sorted[i] in sorted;
      }
      InsertKeepsOrder(sorted, list[n]);
      sorted := InsertById(sorted, list[n]);
    }
  }

  /** Collects the entries that changed, walking the index in no particular order. */
  method CollectChanges(segs: SegmentIndex, vc: seq<real>, last: BucketMap)
    returns (changed: seq<SegmentVC>, now: BucketMap)
    requires Injective(segs)
    ensures Lists(changed, ChangedEntries(segs, segs.Keys, last, vc))
    ensures UpdatedOver(segs, segs.Keys, last, vc, now)
  {
    changed, now := [], last;
    var todo, done := segs.Keys, {};
    while todo != {}
      invariant todo + done == segs.Keys && todo !! done
      invariant DistinctIds(changed) && ListsUnsorted(changed, ChangedEntries(segs, done, last, vc))
      invariant UpdatedOver(segs, done, last, vc, now)
      decreases todo
    {
      var e := Pick(todo);
      var b := BucketOf(VcAt(vc, e));
      NotYetListed(segs, done, last, vc, changed, e);
      UpdateStep(segs, done, last, vc, now, e);
      if segs[e] !in now || now[segs[e]] != b {
        changed, now := changed + [Entry(segs, vc, e)], now[segs[e] := b];
      } else {
        assert now[segs[e] := b] == now;
      }
      todo, done := todo - {e}, done + {e};
    }
    changed := SortById(changed);
  }

  ghost predicate ListsUnsorted(list: seq<SegmentVC>, s: set<SegmentVC>) {
    forall x :: x in list <==> x in s
  }

  lemma NotYetListed(segs: SegmentIndex, done: set<int>, last: BucketMap, vc: seq<real>, changed: seq<SegmentVC>, e: int)
    requires Injective(segs) && done <= segs.Keys && e in segs && e !in done
    requires ListsUnsorted(changed, ChangedEntries(segs, done, last, vc))
    ensures forall i :: 0 <= i < |changed| ==> changed[i].segment != segs[e]
    ensures ChangedEntries(segs, done + {e}, last, vc)
            == ChangedEntries(segs, done, last, vc)
               + (if segs[e] !in last || last[segs[e]] != BucketOf(VcAt(vc, e)) then {Entry(segs, vc, e)} else {})
  {
    forall i | 0 <= i < |changed|
      ensures changed[i].segment != segs[e]
    {
      assert changed[i] in changed;
    }
  }

  /** Bringing every edge up to date gives the full bucketed state, when only known segments were sent before. */
  lemma UpdatedIsBucketed(segs: SegmentIndex, last: BucketMap, vc: seq<real>, now: BucketMap)
    requires Injective(segs) && UpdatedOver(segs, segs.Keys, last, vc, now)
    requires last.Keys <= Segments(segs, segs.Keys)
    ensures now == Bucketed(segs, vc)
  {
  }

  // ---- replay

  /** The wall-clock-free replay core, per algorithm: next unsent tick, last sent buckets, first instant. */
  datatype Replay = Replay(cursor: map<Algo, nat>, last: map<Algo, BucketMap>, first: map<Algo, real>, elapsed: real) {
    ghost predicate Complete() {
      forall a: Algo :: a in cursor && a in last && a in first
    }
  }

  /** The first position at or after `cursor` whose simulated offset lies beyond the clock. */
  function Reach(ticks: seq<AlgoTick>, cursor: nat, first: real, elapsed: real): (n: nat)
    ensures n >= cursor && (cursor <= |ticks| ==> n <= |ticks|)
    decreases |ticks| - cursor
  {
    if cursor < |ticks| && ticks[cursor].simTime - first <= elapsed then Reach(ticks, cursor + 1, first, elapsed)
    else cursor
  }

  method SkipReached(ticks: seq<AlgoTick>, cursor: nat, first: real, elapsed: real) returns (at: nat)
    requires cursor <= |ticks|
    ensures at == Reach(ticks, cursor, first, elapsed)
  {
    at := cursor;
    while at < |ticks| && ticks[at].simTime - first <= elapsed
      invariant cursor <= at <= |ticks|
      invariant Reach(ticks, at, first, elapsed) == Reach(ticks, cursor, first, elapsed)
    {
      at := at + 1;
    }
  }

  /** One algorithm's turn within a server tick, on the ticks it read. */
  ghost predicate Visited(segs: SegmentIndex, r: Replay, algo: Algo, ticks: seq<AlgoTick>, q: Replay, f: Option<Frame>)
    requires r.Complete() && r.cursor[algo] <= |ticks|
  {
    var n := Reach(ticks, r.cursor[algo], r.first[algo], r.elapsed);
    if n == r.cursor[algo] then q == r && f == None
    else
      && q.cursor == r.cursor[algo := n] && q.first == r.first && q.elapsed == r.elapsed
      && algo in q.last && q.last == r.last[algo := q.last[algo]]
      && UpdatedOver(segs, segs.Keys, r.last[algo], ticks[n - 1].vc, q.last[algo])
      && f.Some? && IsDelta(segs, r.last[algo], ticks[n - 1], algo, f.value)
  }

  class ReplayState {
    var cursor: map<Algo, nat>
    var lastBuckets: map<Algo, BucketMap>
    var firstSimTime: map<Algo, real>
    const simSecondsPerServerTick: real
    var elapsedSimSeconds: real

    function View(): Replay
      reads this
    {
      Replay(cursor, lastBuckets, firstSimTime, elapsedSimSeconds)
    }

    constructor (start: Replay, step: real)
      ensures View() == start && simSecondsPerServerTick == step
    {
      cursor, lastBuckets, firstSimTime := start.cursor, start.last, start.first;
      elapsedSimSeconds, simSecondsPerServerTick := start.elapsed, step;
    }

    method Visit(segs: SegmentIndex, algo: Algo, ticks: seq<AlgoTick>) returns (frame: Option<Frame>)
      requires Injective(segs) && View().Complete() && cursor[algo] <= |ticks|
      modifies this
      ensures View().Complete() && Visited(segs, old(View()), algo, ticks, View(), frame)
    {
      var at := SkipReached(ticks, cursor[algo], firstSimTime[algo], elapsedSimSeconds);
      if at == cursor[algo] {
        return None;
      }
      cursor := cursor[algo := at];
      var tick := ticks[at - 1];
      var changed, now := CollectChanges(segs, tick.vc, lastBuckets[algo]);
      lastBuckets := lastBuckets[algo := now];
      return Some(Delta(algo, tick.tick, tick.simTime, changed, tick.metrics));
    }

    /** One server tick: every algorithm's turn in order, each on the ticks it read when its turn came. */
    method Advance(segs: SegmentIndex, headers: seq<seq<AlgoTick>>)
      returns (frames: seq<Frame>, ghost turns: seq<Option<Frame>>, ghost states: seq<Replay>)
      requires Injective(segs) && View().Complete()
      requires |headers| == |ROUTER_ORDER| && Readable(View(), headers, 0)
      modifies this
      ensures |turns| == |headers| && |states| == |turns| + 1 && frames == Sent(turns, |turns|)
      ensures states[0] == old(View()).(elapsed := old(elapsedSimSeconds) + simSecondsPerServerTick)
      ensures states[|turns|] == View() && View().Complete()
      ensures TurnsTaken(segs, headers, states, turns)
    {
      elapsedSimSeconds := elapsedSimSeconds + simSecondsPerServerTick;
      frames, turns, states := [], [], [View()];
      ghost var start := View();
      for i := 0 to |ROUTER_ORDER|
        invariant View().Complete() && |turns| == i && |states| == i + 1 && states[0] == start && states[i] == View()
        invariant TurnsTaken(segs, headers, states, turns) && frames == Sent(turns, i)
        invariant Readable(View(), headers, i)
      {
        ghost var before := View();
        var frame := Visit(segs, ROUTER_ORDER[i], headers[i]);
        StillReadable(segs, before, headers, i, View(), frame);
        TurnsSnoc(segs, headers, states, turns, View(), frame);
        frames, turns, states := frames + Framed(frame), turns + [frame], states + [View()];
      }
    }

    /** Whether every produced tick has been sent and no more can come. */
    method Done(finished: bool, buffers: map<Algo, seq<AlgoTick>>) returns (done: bool)
      requires View().Complete() && forall a: Algo :: a in buffers
      ensures done <==> finished && forall a: Algo :: cursor[a] >= |buffers[a]|
    {
      if !finished {
        return false;
      }
      for i := 0 to |ROUTER_ORDER|
        invariant forall j :: 0 <= j < i ==> cursor[ROUTER_ORDER[j]] >= |buffers[ROUTER_ORDER[j]]|
      {
        if cursor[ROUTER_ORDER[i]] < |buffers[ROUTER_ORDER[i]]| {
          return false;
        }
      }
      forall a: Algo
        ensures cursor[a] >= |buffers[a]|
      {
        var i := EveryAlgo(a);
      }
      return true;
    }
  }

  function Framed(f: Option<Frame>): seq<Frame> {
    if f.Some? then [f.value] else []
  }

  ghost predicate TurnTaken(segs: SegmentIndex, ticks: seq<AlgoTick>, r: Replay, q: Replay, algo: Algo, f: Option<Frame>) {
    && r.Complete() && q.Complete() && r.cursor[algo] <= |ticks|
    && Visited(segs, r, algo, ticks, q, f)
  }

  /** The frames of the first n turns; a turn with nothing due sends none. */
  function Sent(turns: seq<Option<Frame>>, n: nat): seq<Frame>
    requires n <= |turns|
  {
    if n == 0 then [] else Sent(turns, n - 1) + Framed(turns[n - 1])
  }

  lemma {:induction false} SentPrefix(turns: seq<Option<Frame>>, f: Option<Frame>, n: nat)
    requires n <= |turns|
    ensures Sent(turns + [f], n) == Sent(turns, n)
  {
    if n > 0 {
      SentPrefix(turns, f, n - 1);
    }
  }

  /** Turn by turn, states[i] becomes states[i+1]. */
  ghost predicate TurnsTaken(segs: SegmentIndex, headers: seq<seq<AlgoTick>>, states: seq<Replay>,
                             turns: seq<Option<Frame>>) {
    && |turns| <= |headers| && |turns| <= |ROUTER_ORDER| && |states| == |turns| + 1
    && forall i :: 0 <= i < |turns| ==> TurnTakenAt(segs, headers, states, turns, i)
  }

  ghost predicate TurnTakenAt(segs: SegmentIndex, headers: seq<seq<AlgoTick>>, states: seq<Replay>,
                              turns: seq<Option<Frame>>, i: nat)
    requires i < |turns| <= |headers| && |turns| <= |ROUTER_ORDER| && |states| == |turns| + 1
  {
    TurnTaken(segs, headers[i], states[i], states[i + 1], ROUTER_ORDER[i], turns[i])
  }

  lemma TurnsSnoc(segs: SegmentIndex, headers: seq<seq<AlgoTick>>, states: seq<Replay>, turns: seq<Option<Frame>>,
                  q: Replay, f: Option<Frame>)
    requires TurnsTaken(segs, headers, states, turns) && |turns| < |headers| && |turns| < |ROUTER_ORDER|
    requires TurnTaken(segs, headers[|turns|], states[|turns|], q, ROUTER_ORDER[|turns|], f)
    ensures TurnsTaken(segs, headers, states + [q], turns + [f])
    ensures Sent(turns + [f], |turns| + 1) == Sent(turns, |turns|) + Framed(f)
  {
    forall i | 0 <= i < |turns| + 1
      ensures TurnTakenAt(segs, headers, states + [q], turns + [f], i)
    {
      if i < |turns| {
        assert TurnTakenAt(segs, headers, states, turns, i);
      }
    }
    SentPrefix(turns, f, |turns|);
  }

  /** The turns from n on will each read at least what was read before. */
  ghost predicate Readable(r: Replay, headers: seq<seq<AlgoTick>>, n: nat)
    requires r.Complete() && |headers| == |ROUTER_ORDER|
  {
    forall j :: n <= j < |headers| ==> r.cursor[ROUTER_ORDER[j]] <= |headers[j]|
  }

  lemma StillReadable(segs: SegmentIndex, r: Replay, headers: seq<seq<AlgoTick>>, i: nat, q: Replay, f: Option<Frame>)
    requires r.Complete() && i < |headers| == |ROUTER_ORDER| && Readable(r, headers, i)
    requires TurnTaken(segs, headers[i], r, q, ROUTER_ORDER[i], f)
    ensures Readable(q, headers, i + 1)
  {
    forall j | i < j < |headers|
      ensures q.cursor[ROUTER_ORDER[j]] <= |headers[j]|
    {
      assert ROUTER_ORDER[j] != ROUTER_ORDER[i];
      assert r.cursor[ROUTER_ORDER[j]] <= |headers[j]|;
    }
  }

  // ---- starting a replay

  /** The buckets a client shows after the first c ticks of an algorithm have been passed. */
  ghost function Shown(segs: SegmentIndex, ticks: seq<AlgoTick>, c: nat): BucketMap
    requires Injective(segs) && c <= |ticks|
  {
    if c == 0 then map[] else Bucketed(segs, ticks[c - 1].vc)
  }

  ghost predicate LaneStarted(segs: SegmentIndex, algo: Algo, ticks: seq<AlgoTick>, r: Replay, f: Frame)
    requires Injective(segs) && r.Complete()
  {
    && IsSnapshot(segs, algo, ticks, f)
    && r.cursor[algo] == (if ticks == [] then 0 else 1)
    && r.last[algo] == Shown(segs, ticks, r.cursor[algo])
    && (ticks != [] ==> r.first[algo] == ticks[0].simTime)
  }

  /** A replay started over these buffers, and the snapshots sent first. */
  ghost predicate Started(segs: SegmentIndex, buffers: map<Algo, seq<AlgoTick>>, r: Replay, snapshots: seq<Frame>)
    requires Injective(segs) && forall a: Algo :: a in buffers
  {
    && r.Complete() && r.elapsed == 0.0 && |snapshots| == |ROUTER_ORDER|
    && forall i :: 0 <= i < |ROUTER_ORDER| ==>
         LaneStarted(segs, ROUTER_ORDER[i], buffers[ROUTER_ORDER[i]], r, snapshots[i])
  }

  method BuildSnapshot(segs: SegmentIndex, algo: Algo, ticks: seq<AlgoTick>) returns (last: BucketMap, frame: Frame)
    requires Injective(segs)
    ensures IsSnapshot(segs, algo, ticks, frame)
    ensures last == Shown(segs, ticks, if ticks == [] then 0 else 1)
  {
    if ticks == [] {
      return map[], Snapshot(algo, 0, 0.0, [], Metrics(0, 0, 0.0, 0.0, 0, 0));
    }
    var entries, now := CollectChanges(segs, ticks[0].vc, map[]);
    UpdatedIsBucketed(segs, map[], ticks[0].vc, now);
    return now, Snapshot(algo, ticks[0].tick, ticks[0].simTime, entries, ticks[0].metrics);
  }

  /** The algorithms that have their snapshot have started, the others are untouched. */
  ghost predicate LanesStarted(segs: SegmentIndex, buffers: map<Algo, seq<AlgoTick>>, r: Replay, snapshots: seq<Frame>)
    requires Injective(segs) && r.Complete() && forall a: Algo :: a in buffers
  {
    && |snapshots| <= |ROUTER_ORDER|
    && (forall j :: 0 <= j < |snapshots| ==>
          LaneStarted(segs, ROUTER_ORDER[j], buffers[ROUTER_ORDER[j]], r, snapshots[j]))
    && forall j :: |snapshots| <= j < |ROUTER_ORDER| ==> r.cursor[ROUTER_ORDER[j]] == 0
  }

  /** The replay with one more algorithm started. */
  function StartLane(r: Replay, algo: Algo, ticks: seq<AlgoTick>, last: BucketMap): Replay {
    var q := r.(last := r.last[algo := last]);
    if ticks == [] then q
    else q.(cursor := q.cursor[algo := 1], first := q.first[algo := ticks[0].simTime])
  }

  lemma LanesSnoc(segs: SegmentIndex, buffers: map<Algo, seq<AlgoTick>>, r: Replay, snapshots: seq<Frame>,
                  last: BucketMap, f: Frame)
    requires Injective(segs) && r.Complete() && forall a: Algo :: a in buffers
    requires LanesStarted(segs, buffers, r, snapshots) && |snapshots| < |ROUTER_ORDER|
    requires var algo := ROUTER_ORDER[|snapshots|];
      && IsSnapshot(segs, algo, buffers[algo], f)
      && last == Shown(segs, buffers[algo], if buffers[algo] == [] then 0 else 1)
    ensures var algo := ROUTER_ORDER[|snapshots|];
      var q := StartLane(r, algo, buffers[algo], last);
      q.Complete() && LanesStarted(segs, buffers, q, snapshots + [f])
  {
    var algo := ROUTER_ORDER[|snapshots|];
    var q := StartLane(r, algo, buffers[algo], last);
    forall j | 0 <= j < |snapshots|
      ensures LaneStarted(segs, ROUTER_ORDER[j], buffers[ROUTER_ORDER[j]], q, snapshots[j])
    {
      assert ROUTER_ORDER[j] != algo;
      assert LaneStarted(segs, ROUTER_ORDER[j], buffers[ROUTER_ORDER[j]], r, snapshots[j]);
    }
    forall j | |snapshots| < j < |ROUTER_ORDER|
      ensures q.cursor[ROUTER_ORDER[j]] == 0
    {
      assert ROUTER_ORDER[j] != algo;
    }
  }

  method NewReplayState(segs: SegmentIndex, buffers: map<Algo, seq<AlgoTick>>, step: real)
    returns (rs: ReplayState, snapshots: seq<Frame>)
    requires Injective(segs) && forall a: Algo :: a in buffers
    ensures fresh(rs) && rs.simSecondsPerServerTick == step && Started(segs, buffers, rs.View(), snapshots)
  {
    var cursor: map<Algo, nat> := map a: Algo | a in ROUTER_ORDER :: 0;
    var last: map<Algo, BucketMap> := map a: Algo | a in ROUTER_ORDER :: map[];
    var first: map<Algo, real> := map a: Algo | a in ROUTER_ORDER :: 0.0;
    snapshots := [];
    AllInOrder();
    for i := 0 to |ROUTER_ORDER|
      invariant Replay(cursor, last, first, 0.0).Complete() && |snapshots| == i
      invariant LanesStarted(segs, buffers, Replay(cursor, last, first, 0.0), snapshots)
    {
      var algo := ROUTER_ORDER[i];
      var ticks := buffers[algo];
      var buckets, frame := BuildSnapshot(segs, algo, ticks);
      LanesSnoc(segs, buffers, Replay(cursor, last, first, 0.0), snapshots, buckets, frame);
      if ticks != [] {
        cursor, first := cursor[algo := 1], first[algo := ticks[0].simTime];
      }
      last, snapshots := last[algo := buckets], snapshots + [frame];
    }
    rs := new ReplayState(Replay(cursor, last, first, 0.0), step);
  }

  lemma AllInOrder()
    ensures forall a: Algo :: a in ROUTER_ORDER
  {
    forall a: Algo
      ensures a in ROUTER_ORDER
    {
      var i := EveryAlgo(a);
    }
  }

  // ---- draining a finished producer

  /** Every tick from `cursor` on is due by the clock. */
  ghost predicate RestDue(ticks: seq<AlgoTick>, cursor: nat, first: real, clock: real) {
    forall k :: cursor <= k < |ticks| ==> ticks[k].simTime - first <= clock
  }

  lemma {:induction false} ReachesAllIff(ticks: seq<AlgoTick>, cursor: nat, first: real, clock: real)
    requires cursor <= |ticks|
    ensures Reach(ticks, cursor, first, clock) == |ticks| <==> RestDue(ticks, cursor, first, clock)
    decreases |ticks| - cursor
  {
    if cursor < |ticks| && ticks[cursor].simTime - first <= clock {
      ReachesAllIff(ticks, cursor + 1, first, clock);
    }
  }

  /** Reaching in two goes is reaching in one. */
  lemma {:induction false} ReachAgain(ticks: seq<AlgoTick>, cursor: nat, first: real, clock: real, later: real)
    requires cursor <= |ticks| && clock <= later
    ensures Reach(ticks, Reach(ticks, cursor, first, clock), first, later) == Reach(ticks, cursor, first, later)
    decreases |ticks| - cursor
  {
    if cursor < |ticks| && ticks[cursor].simTime - first <= clock {
      ReachAgain(ticks, cursor + 1, first, clock, later);
    }
  }

  function Max(a: real, b: real): real {
    if a < b then b else a
  }

  /** The largest offset of the ticks from `cursor` on, or the clock if that is later. */
  function LastOffset(ticks: seq<AlgoTick>, cursor: nat, first: real, clock: real): real
    requires cursor <= |ticks|
    decreases |ticks| - cursor
  {
    if cursor == |ticks| then clock
    else Max(LastOffset(ticks, cursor + 1, first, clock), ticks[cursor].simTime - first)
  }

  lemma {:induction false} LastOffsetIs(ticks: seq<AlgoTick>, cursor: nat, first: real, clock: real, later: real)
    requires cursor <= |ticks| && clock <= later
    ensures LastOffset(ticks, cursor, first, clock) <= later <==> RestDue(ticks, cursor, first, later)
    decreases |ticks| - cursor
  {
    if cursor < |ticks| {
      LastOffsetIs(ticks, cursor + 1, first, clock, later);
    }
  }

  /** The largest offset of any tick not yet replayed, or the clock if that is later. */
  ghost function HorizonBelow(r: Replay, buffers: map<Algo, seq<AlgoTick>>, n: nat): real
    requires Within(r, buffers) && n <= |ROUTER_ORDER|
  {
    if n == 0 then r.elapsed
    else
      var a := ROUTER_ORDER[n - 1];
      Max(HorizonBelow(r, buffers, n - 1), LastOffset(buffers[a], r.cursor[a], r.first[a], r.elapsed))
  }

  ghost function Horizon(r: Replay, buffers: map<Algo, seq<AlgoTick>>): real
    requires Within(r, buffers)
  {
    HorizonBelow(r, buffers, |ROUTER_ORDER|)
  }

  /** Nothing that is not yet replayed lies beyond the clock. */
  ghost predicate AllDue(r: Replay, buffers: map<Algo, seq<AlgoTick>>, clock: real)
    requires Within(r, buffers)
  {
    forall a: Algo :: RestDue(buffers[a], r.cursor[a], r.first[a], clock)
  }

  lemma {:induction false} HorizonBelowIs(r: Replay, buffers: map<Algo, seq<AlgoTick>>, n: nat, clock: real)
    requires Within(r, buffers) && n <= |ROUTER_ORDER| && r.elapsed <= clock
    ensures HorizonBelow(r, buffers, n) <= clock <==>
      forall i :: 0 <= i < n ==>
        RestDue(buffers[ROUTER_ORDER[i]], r.cursor[ROUTER_ORDER[i]], r.first[ROUTER_ORDER[i]], clock)
  {
    if n > 0 {
      var a := ROUTER_ORDER[n - 1];
      HorizonBelowIs(r, buffers, n - 1, clock);
      LastOffsetIs(buffers[a], r.cursor[a], r.first[a], r.elapsed, clock);
    }
  }

  lemma HorizonIs(r: Replay, buffers: map<Algo, seq<AlgoTick>>, clock: real)
    requires Within(r, buffers) && r.elapsed <= clock
    ensures Horizon(r, buffers) <= clock <==> AllDue(r, buffers, clock)
  {
    HorizonBelowIs(r, buffers, |ROUTER_ORDER|, clock);
    if Horizon(r, buffers) <= clock {
      forall a: Algo
        ensures RestDue(buffers[a], r.cursor[a], r.first[a], clock)
      {
        var i := EveryAlgo(a);
      }
    }
  }

  /** The simulated clock n server ticks on. */
  function ClockAfter(start: real, step: real, n: nat): real {
    start + n as real * step
  }

  lemma ClockSteps(start: real, step: real, n: nat)
    ensures ClockAfter(start, step, 0) == start
    ensures ClockAfter(start, step, n + 1) == ClockAfter(start, step, n) + step
    ensures step >= 0.0 ==> ClockAfter(start, step, n) >= start
  {
    assert (n + 1) as real * step == n as real * step + step;
    if step >= 0.0 {
      assert n as real * step >= 0.0;
    }
  }

  function CeilingOf(x: real): int {
    -((-x).Floor)
  }

  function StepsBetween(from: real, to: real, step: real): int
    requires step > 0.0
  {
    CeilingOf((to - from) / step)
  }

  /** How many server ticks it takes to replay what is left: one at least. */
  ghost function TicksToDrain(r: Replay, buffers: map<Algo, seq<AlgoTick>>, step: real): nat
    requires Within(r, buffers) && step > 0.0
  {
    var n := StepsBetween(r.elapsed, Horizon(r, buffers), step);
    if n < 1 then 1 else n
  }

  lemma StepsBetweenIs(from: real, to: real, step: real, n: nat)
    requires step > 0.0
    ensures to <= ClockAfter(from, step, n) <==> StepsBetween(from, to, step) <= n
  {
    var x := (to - from) / step;
    assert x * step == to - from;
    ScaledOrder(x, n as real, step);
    assert CeilingOf(x) <= n <==> x <= n as real;
  }

  lemma ScaledOrder(a: real, b: real, step: real)
    requires step > 0.0
    ensures a <= b <==> a * step <= b * step
  {
    if a <= b {
      assert (b - a) * step >= 0.0;
    } else {
      assert (a - b) * step > 0.0;
    }
  }

  lemma TicksToDrainIs(r: Replay, buffers: map<Algo, seq<AlgoTick>>, step: real, n: nat)
    requires Within(r, buffers) && step > 0.0 && n > 0
    ensures AllDue(r, buffers, ClockAfter(r.elapsed, step, n)) <==> TicksToDrain(r, buffers, step) <= n
  {
    ClockSteps(r.elapsed, step, n);
    HorizonIs(r, buffers, ClockAfter(r.elapsed, step, n));
    StepsBetweenIs(r.elapsed, Horizon(r, buffers), step, n);
  }

  /** A turn moves only its own algorithm's cursor. */
  lemma TurnMovesOne(segs: SegmentIndex, headers: seq<seq<AlgoTick>>, states: seq<Replay>, turns: seq<Option<Frame>>,
                     n: nat, i: nat)
    requires TurnsTaken(segs, headers, states, turns) && n < |turns| && i < |ROUTER_ORDER|
    ensures states[n].Complete() && states[n + 1].Complete()
    ensures states[n + 1].first == states[n].first && states[n + 1].elapsed == states[n].elapsed
    ensures var a := ROUTER_ORDER[i];
      states[n + 1].cursor[a]
      == if i == n then Reach(headers[i], states[n].cursor[a], states[n].first[a], states[n].elapsed)
         else states[n].cursor[a]
  {
    assert TurnTakenAt(segs, headers, states, turns, n);
    if i < n {
      OrderDistinct(i, n);
    } else if n < i {
      OrderDistinct(n, i);
    }
    TurnMoves(segs, states[n], ROUTER_ORDER[n], headers[n], states[n + 1], turns[n], ROUTER_ORDER[i]);
  }

  lemma {:induction false} TurnsMove(segs: SegmentIndex, headers: seq<seq<AlgoTick>>, states: seq<Replay>,
                                     turns: seq<Option<Frame>>, n: nat, i: nat)
    requires TurnsTaken(segs, headers, states, turns) && n <= |turns| && i < |ROUTER_ORDER|
    requires states[0].Complete()
    ensures states[n].Complete() && states[n].first == states[0].first && states[n].elapsed == states[0].elapsed
    ensures var a := ROUTER_ORDER[i];
      states[n].cursor[a]
      == if i < n then Reach(headers[i], states[0].cursor[a], states[0].first[a], states[0].elapsed)
         else states[0].cursor[a]
  {
    if n > 0 {
      TurnsMove(segs, headers, states, turns, n - 1, i);
      TurnMovesOne(segs, headers, states, turns, n - 1, i);
    }
  }

  lemma TurnMoves(segs: SegmentIndex, r: Replay, algo: Algo, ticks: seq<AlgoTick>, q: Replay, f: Option<Frame>, a: Algo)
    requires TurnTaken(segs, ticks, r, q, algo, f)
    ensures r.Complete() && q.Complete() && q.first == r.first && q.elapsed == r.elapsed
    ensures q.cursor[a] == if a == algo then Reach(ticks, r.cursor[a], r.first[a], r.elapsed) else r.cursor[a]
  {
  }

  function Headers(buffers: map<Algo, seq<AlgoTick>>): (h: seq<seq<AlgoTick>>)
    requires forall a: Algo :: a in buffers
    ensures |h| == |ROUTER_ORDER| && forall i :: 0 <= i < |h| ==> h[i] == buffers[ROUTER_ORDER[i]]
  {
    seq(|ROUTER_ORDER|, i requires 0 <= i < |ROUTER_ORDER| => buffers[ROUTER_ORDER[i]])
  }

  lemma AdvanceMoves(segs: SegmentIndex, buffers: map<Algo, seq<AlgoTick>>, r: Replay, step: real,
                     states: seq<Replay>, turns: seq<Option<Frame>>, q: Replay)
    requires r.Complete() && (forall a: Algo :: a in buffers) && forall a: Algo :: r.cursor[a] <= |buffers[a]|
    requires TurnsTaken(segs, Headers(buffers), states, turns) && |turns| == |ROUTER_ORDER|
    requires states[0] == r.(elapsed := r.elapsed + step) && states[|turns|] == q
    ensures q.Complete() && q.first == r.first && q.elapsed == r.elapsed + step
    ensures forall a: Algo :: q.cursor[a] == Reach(buffers[a], r.cursor[a], r.first[a], q.elapsed) <= |buffers[a]|
  {
    TurnsMove(segs, Headers(buffers), states, turns, |turns|, 0);
    forall a: Algo
      ensures q.cursor[a] == Reach(buffers[a], r.cursor[a], r.first[a], q.elapsed) <= |buffers[a]|
    {
      var i := EveryAlgo(a);
      TurnsMove(segs, Headers(buffers), states, turns, |turns|, i);
    }
  }

  ghost predicate Within(r: Replay, buffers: map<Algo, seq<AlgoTick>>) {
    r.Complete() && forall a: Algo :: a in buffers && r.cursor[a] <= |buffers[a]|
  }

  ghost predicate Drained(r: Replay, buffers: map<Algo, seq<AlgoTick>>)
    requires Within(r, buffers)
  {
    forall a: Algo :: r.cursor[a] == |buffers[a]|
  }

  /** q is the replay r after server ticks that brought the clock to q's: each cursor stands at the clock's reach. */
  ghost predicate CaughtUp(r: Replay, buffers: map<Algo, seq<AlgoTick>>, q: Replay)
    requires Within(r, buffers) && Within(q, buffers)
  {
    && q.first == r.first && q.elapsed >= r.elapsed
    && forall a: Algo :: q.cursor[a] == Reach(buffers[a], r.cursor[a], r.first[a], q.elapsed)
  }

  /** One server tick over buffers that no longer grow. */
  method AdvanceOver(segs: SegmentIndex, rs: ReplayState, buffers: map<Algo, seq<AlgoTick>>)
    requires Injective(segs) && Within(rs.View(), buffers) && rs.simSecondsPerServerTick > 0.0
    modifies rs
    ensures Within(rs.View(), buffers) && CaughtUp(old(rs.View()), buffers, rs.View())
    ensures rs.elapsedSimSeconds == old(rs.elapsedSimSeconds) + rs.simSecondsPerServerTick
  {
    ghost var before := rs.View();
    var frames, turns, states := rs.Advance(segs, Headers(buffers));
    AdvanceMoves(segs, buffers, before, rs.simSecondsPerServerTick, states, turns, rs.View());
  }

  lemma CaughtUpAgain(r: Replay, buffers: map<Algo, seq<AlgoTick>>, q: Replay, p: Replay)
    requires Within(r, buffers) && Within(q, buffers) && Within(p, buffers)
    requires CaughtUp(r, buffers, q) && CaughtUp(q, buffers, p)
    ensures CaughtUp(r, buffers, p)
  {
    forall a: Algo
      ensures p.cursor[a] == Reach(buffers[a], r.cursor[a], r.first[a], p.elapsed)
    {
      ReachAgain(buffers[a], r.cursor[a], r.first[a], q.elapsed, p.elapsed);
    }
  }

  lemma CaughtUpDrains(r: Replay, buffers: map<Algo, seq<AlgoTick>>, q: Replay)
    requires Within(r, buffers) && Within(q, buffers) && CaughtUp(r, buffers, q)
    ensures Drained(q, buffers) <==> AllDue(r, buffers, q.elapsed)
  {
    forall a: Algo
      ensures q.cursor[a] == |buffers[a]| <==> RestDue(buffers[a], r.cursor[a], r.first[a], q.elapsed)
    {
      ReachesAllIff(buffers[a], r.cursor[a], r.first[a], q.elapsed);
    }
  }

  /** The replay `start`, n server ticks on. */
  ghost predicate TicksOn(start: Replay, buffers: map<Algo, seq<AlgoTick>>, step: real, n: nat, q: Replay) {
    && Within(start, buffers) && Within(q, buffers) && q.elapsed == ClockAfter(start.elapsed, step, n)
    && if n == 0 then q == start else CaughtUp(start, buffers, q)
  }

  lemma OneTickOn(start: Replay, buffers: map<Algo, seq<AlgoTick>>, step: real, n: nat, q: Replay, p: Replay)
    requires TicksOn(start, buffers, step, n, q) && step > 0.0
    requires Within(p, buffers) && CaughtUp(q, buffers, p) && p.elapsed == q.elapsed + step
    ensures TicksOn(start, buffers, step, n + 1, p)
    ensures Drained(p, buffers) <==> TicksToDrain(start, buffers, step) <= n + 1
  {
    if n > 0 {
      CaughtUpAgain(start, buffers, q, p);
    }
    ClockSteps(start.elapsed, step, n);
    CaughtUpDrains(start, buffers, p);
    TicksToDrainIs(start, buffers, step, n + 1);
  }

  /** One round of the replay loop after the producer has finished, n server ticks on from `start`. */
  method ReplayRound(segs: SegmentIndex, rs: ReplayState, buffers: map<Algo, seq<AlgoTick>>,
                     ghost start: Replay, ghost rounds: nat, ghost n: nat) returns (done: bool)
    requires Injective(segs) && rs.simSecondsPerServerTick > 0.0
    requires TicksOn(start, buffers, rs.simSecondsPerServerTick, n, rs.View())
    requires rounds == TicksToDrain(start, buffers, rs.simSecondsPerServerTick)
    modifies rs
    ensures TicksOn(start, buffers, rs.simSecondsPerServerTick, n + 1, rs.View())
    ensures done <==> rounds <= n + 1
    ensures done ==> Drained(rs.View(), buffers)
  {
    ghost var before := rs.View();
    AdvanceOver(segs, rs, buffers);
    OneTickOn(start, buffers, rs.simSecondsPerServerTick, n, before, rs.View());
    done := rs.Done(true, buffers);
  }

  /**
   The replay loop once the producer has finished: it ends with every tick replayed, after exactly
   as many server ticks as it takes the simulated clock to reach the last one (and at least one).
   */
  method ReplayRest(segs: SegmentIndex, rs: ReplayState, buffers: map<Algo, seq<AlgoTick>>)
    returns (serverTicks: nat)
    requires Injective(segs) && Within(rs.View(), buffers) && rs.simSecondsPerServerTick > 0.0
    modifies rs
    ensures serverTicks == TicksToDrain(old(rs.View()), buffers, rs.simSecondsPerServerTick)
    ensures Within(rs.View(), buffers) && Drained(rs.View(), buffers)
    ensures rs.elapsedSimSeconds == ClockAfter(old(rs.elapsedSimSeconds), rs.simSecondsPerServerTick, serverTicks)
  {
    ghost var start, step := rs.View(), rs.simSecondsPerServerTick;
    ghost var rounds := TicksToDrain(start, buffers, step);
    serverTicks := 0;
    ClockSteps(start.elapsed, step, 0);
    while true
      invariant serverTicks < rounds && TicksOn(start, buffers, step, serverTicks, rs.View())
      decreases rounds - serverTicks
    {
      var done := ReplayRound(segs, rs, buffers, start, rounds, serverTicks);
      serverTicks := serverTicks + 1;
      if done {
        return;
      }
    }
  }
}
