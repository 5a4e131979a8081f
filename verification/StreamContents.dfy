/** What the frames carry and the client shows, in the numbers of the ticks themselves. */
module StreamContents {
  import opened Results
  import opened Frames
  import opened CongestionClient
  import opened Stream
  import opened StreamRuns

  /** b is the bucket of edge e in a tick: the band of its ratio, and the lowest for an edge without one. */
  ghost predicate BucketFor(vc: seq<real>, e: int, b: int) {
    if 0 <= e < |vc| then InBand(vc[e], b) else b == 0
  }

  lemma BucketForIs(vc: seq<real>, e: int, b: int)
    ensures BucketFor(vc, e, b) <==> b == BucketOf(VcAt(vc, e))
  {
    BucketIsBand(VcAt(vc, e), b);
  }

  // ---- what the client shows

  /** The client shows, for every edge, the band of that edge's ratio in this tick. */
  ghost predicate ShowsTick(segs: SegmentIndex, m: BucketMap, vc: seq<real>) {
    && (forall id :: id in m ==> exists e :: e in segs && segs[e] == id)
    && forall e :: e in segs ==> segs[e] in m && BucketFor(vc, e, m[segs[e]])
  }

  lemma BucketedShows(segs: SegmentIndex, vc: seq<real>)
    requires Injective(segs)
    ensures ShowsTick(segs, Bucketed(segs, vc), vc)
  {
    var m := Bucketed(segs, vc);
    forall e | e in segs
      ensures segs[e] in m && BucketFor(vc, e, m[segs[e]])
    {
      BucketForIs(vc, e, m[segs[e]]);
    }
    forall id | id in m
      ensures exists e :: e in segs && segs[e] == id
    {
      assert id in Segments(segs, segs.Keys);
    }
  }

  /** After c ticks of an algorithm the client shows the c-th, or nothing if there never was one. */
  ghost predicate ShowsPassed(segs: SegmentIndex, m: BucketMap, ticks: seq<AlgoTick>, c: nat)
    requires c <= |ticks|
  {
    if c == 0 then m == map[] && ticks == [] else ShowsTick(segs, m, ticks[c - 1].vc)
  }

  lemma ShownPassed(cfg: Config, client: CongestionState, a: Algo, ticks: seq<AlgoTick>, c: nat)
    requires Injective(cfg.segs) && client.Complete() && c <= |ticks| && ClientShows(cfg, client, a, ticks, c)
    requires c == 0 ==> ticks == []
    ensures ShowsPassed(cfg.segs, client.buckets[a], ticks, c)
  {
    if c > 0 {
      BucketedShows(cfg.segs, ticks[c - 1].vc);
    }
  }

  lemma LanePassed(cfg: Config, s: System, a: Algo)
    requires Inv(cfg, s)
    ensures s.replay.cursor[a] <= |s.buffers[a]| && (s.replay.cursor[a] == 0 ==> s.buffers[a] == [])
  {
    assert LaneOk(cfg, s, a);
  }

  /**
   Over every run: the client, with the frames in transit folded in, shows for every edge the band of
   that edge's ratio in the last tick its algorithm passed, and nothing else; it shows that already
   when none of those frames is the algorithm's.
   */
  lemma ClientShowsRatios(cfg: Config, run: seq<System>, events: seq<Event>, k: nat, a: Algo)
    requires IsRun(cfg, run, events) && k < |run|
    ensures run[k].Complete() && run[k].replay.cursor[a] <= |run[k].buffers[a]|
    ensures ShowsPassed(cfg.segs, run[k].Ahead().buckets[a], run[k].buffers[a], run[k].replay.cursor[a])
    ensures NoneFor(run[k].outbox, a) ==>
      ShowsPassed(cfg.segs, run[k].Client().buckets[a], run[k].buffers[a], run[k].replay.cursor[a])
  {
    RunInv(cfg, run, events, k);
    LanePassed(cfg, run[k], a);
    ClientTracksServer(cfg, run, events, k, a);
    ShownPassed(cfg, run[k].Ahead(), a, run[k].buffers[a], run[k].replay.cursor[a]);
    if NoneFor(run[k].outbox, a) {
      ShownPassed(cfg, run[k].Client(), a, run[k].buffers[a], run[k].replay.cursor[a]);
    }
  }

  // ---- what a frame carries

  /** An entry is some edge's segment with that edge's ratio in the tick, 0 if it has none, and its band. */
  ghost predicate Carries(segs: SegmentIndex, vc: seq<real>, x: SegmentVC) {
    exists e :: e in segs && EntryFor(segs, vc, e, x)
  }

  ghost predicate EntryFor(segs: SegmentIndex, vc: seq<real>, e: int, x: SegmentVC)
    requires e in segs
  {
    x.segment == segs[e] && x.vc == (if 0 <= e < |vc| then vc[e] else 0.0) && BucketFor(vc, e, x.bucket)
  }

  lemma ChangedCarries(segs: SegmentIndex, last: BucketMap, vc: seq<real>, x: SegmentVC)
    requires x in ChangedEntries(segs, segs.Keys, last, vc)
    ensures Carries(segs, vc, x)
  {
    forall e | e in segs
      ensures EntryFor(segs, vc, e, Entry(segs, vc, e))
    {
      BucketForIs(vc, e, BucketOf(VcAt(vc, e)));
    }
  }

  lemma ListedCarry(segs: SegmentIndex, last: BucketMap, vc: seq<real>, list: seq<SegmentVC>)
    requires Lists(list, ChangedEntries(segs, segs.Keys, last, vc))
    ensures forall i :: 0 <= i < |list| ==> Carries(segs, vc, list[i])
  {
    forall i | 0 <= i < |list|
      ensures Carries(segs, vc, list[i])
    {
      assert list[i] in list;
      ChangedCarries(segs, last, vc, list[i]);
    }
  }

  /** The bucket of an edge is not the same in both ticks. */
  ghost predicate Moves(before: seq<real>, now: seq<real>, e: int) {
    forall b :: BucketFor(before, e, b) ==> !BucketFor(now, e, b)
  }

  lemma MovesIff(segs: SegmentIndex, before: seq<real>, now: seq<real>, e: int)
    requires Injective(segs) && e in segs
    ensures Moves(before, now, e) <==> DiffersAt(Bucketed(segs, before), Bucketed(segs, now), segs[e])
  {
    BucketForIs(before, e, BucketOf(VcAt(before, e)));
    BucketForIs(now, e, BucketOf(VcAt(before, e)));
    if DiffersAt(Bucketed(segs, before), Bucketed(segs, now), segs[e]) {
      forall b | BucketFor(before, e, b)
        ensures !BucketFor(now, e, b)
      {
        BucketForIs(before, e, b);
        BucketForIs(now, e, b);
      }
    }
  }

  /** The snapshots a run starts with list every edge with its ratio in the first tick, if there is one. */
  lemma SnapshotCarriesTick(cfg: Config, s: System, i: nat)
    requires Start(cfg, s) && i < |ROUTER_ORDER|
    ensures |s.outbox| == |ROUTER_ORDER|
    ensures var f, ticks := s.outbox[i], s.buffers[ROUTER_ORDER[i]];
      && f.Snapshot? && f.algo == ROUTER_ORDER[i]
      && if ticks == [] then f.segments == []
         else
           && f.tick == ticks[0].tick && f.simTime == ticks[0].simTime && f.metrics == ticks[0].metrics
           && (forall j :: 0 <= j < |f.segments| ==> Carries(cfg.segs, ticks[0].vc, f.segments[j]))
           && forall e :: e in cfg.segs ==> IsListed(f.segments, cfg.segs[e])
  {
    var f, ticks := s.outbox[i], s.buffers[ROUTER_ORDER[i]];
    assert LaneStarted(cfg.segs, ROUTER_ORDER[i], ticks, s.replay, f);
    if ticks != [] {
      ListedCarry(cfg.segs, map[], ticks[0].vc, f.segments);
      forall e | e in cfg.segs
        ensures IsListed(f.segments, cfg.segs[e])
      {
        ListedIffChanged(cfg, map[], ticks[0].vc, f.segments, cfg.segs[e]);
      }
    }
  }

  /** The delta f takes an algorithm from its c-th tick to its n-th: what changed, with the ratios of the n-th. */
  ghost predicate DeltaCarries(segs: SegmentIndex, ticks: seq<AlgoTick>, c: nat, n: nat, f: Frame) {
    && f.Delta? && 0 < c < n <= |ticks|
    && f.tick == ticks[n - 1].tick && f.simTime == ticks[n - 1].simTime && f.metrics == ticks[n - 1].metrics
    && (forall i :: 0 <= i < |f.changed| ==> Carries(segs, ticks[n - 1].vc, f.changed[i]))
    && forall e :: e in segs ==> (IsListed(f.changed, segs[e]) <==> Moves(ticks[c - 1].vc, ticks[n - 1].vc, e))
  }

  lemma LaneDelta(cfg: Config, finished: bool, a: Algo, ticks: seq<AlgoTick>, c: nat, last: BucketMap,
                  client: CongestionState, n: nat, f: Frame)
    requires Injective(cfg.segs) && client.Complete() && Lane(cfg, finished, a, ticks, c, last, client)
    requires c < n <= |ticks| && IsDelta(cfg.segs, last, ticks[n - 1], a, f)
    ensures DeltaCarries(cfg.segs, ticks, c, n, f)
  {
    ListedCarry(cfg.segs, last, ticks[n - 1].vc, f.changed);
    forall e | e in cfg.segs
      ensures IsListed(f.changed, cfg.segs[e]) <==> Moves(ticks[c - 1].vc, ticks[n - 1].vc, e)
    {
      ListedIffChanged(cfg, last, ticks[n - 1].vc, f.changed, cfg.segs[e]);
      MovesIff(cfg.segs, ticks[c - 1].vc, ticks[n - 1].vc, e);
    }
  }

  lemma TurnCarries(cfg: Config, s: System, e: Event, t: System)
    requires Inv(cfg, s) && Step(cfg, s, e, t) && t.Complete() && e.TakeTurn? && e.frame.Some?
    ensures var f := e.frame.value;
      DeltaCarries(cfg.segs, s.buffers[f.algo], s.replay.cursor[f.algo], t.replay.cursor[f.algo], f)
  {
    var algo, f := ROUTER_ORDER[s.phase.i], e.frame.value;
    assert LaneOk(cfg, s, algo);
    SentTurn(cfg.segs, s.replay, algo, s.buffers[algo], e.next, f);
    LaneDelta(cfg, s.finished, algo, s.buffers[algo], s.replay.cursor[algo], s.replay.last[algo], s.Ahead(),
              t.replay.cursor[algo], f);
  }

  /**
   Over every run: a delta is of the tick its turn jumps to, carries that tick's ratios, and lists an
   edge exactly when its band there differs from the one in the tick passed before.
   */
  lemma DeltaCarriesTick(cfg: Config, run: seq<System>, events: seq<Event>, k: nat)
    requires IsRun(cfg, run, events) && k < |events| && events[k].TakeTurn? && events[k].frame.Some?
    ensures run[k].Complete() && run[k + 1].Complete()
    ensures var f := events[k].frame.value;
      DeltaCarries(cfg.segs, run[k].buffers[f.algo], run[k].replay.cursor[f.algo], run[k + 1].replay.cursor[f.algo], f)
  {
    RunInv(cfg, run, events, k);
    var s, e, t := StepAt(cfg, run, events, k);
    TurnCarries(cfg, s, e, t);
  }

  /** The k-th step of a run, with both its ends. */
  lemma StepAt(cfg: Config, run: seq<System>, events: seq<Event>, k: nat) returns (s: System, e: Event, t: System)
    requires IsRun(cfg, run, events) && k < |events|
    ensures s == run[k] && e == events[k] && t == run[k + 1] && s.Complete() && Step(cfg, s, e, t) && t.Complete()
  {
    assert Linked(cfg, run, events, k);
    s, e, t := run[k], events[k], run[k + 1];
    StepCompletes(cfg, s, e, t);
  }

  // ---- which ticks a turn passes

  /** The instant of a tick counted from the first of its algorithm. */
  function Offset(ticks: seq<AlgoTick>, j: nat): real
    requires j < |ticks|
  {
    ticks[j].simTime - ticks[0].simTime
  }

  lemma {:induction false} ReachIs(ticks: seq<AlgoTick>, cursor: nat, first: real, elapsed: real)
    requires cursor <= |ticks|
    ensures var n := Reach(ticks, cursor, first, elapsed);
      && cursor <= n <= |ticks|
      && (forall j :: cursor <= j < n ==> ticks[j].simTime - first <= elapsed)
      && (n < |ticks| ==> ticks[n].simTime - first > elapsed)
    decreases |ticks| - cursor
  {
    if cursor < |ticks| && ticks[cursor].simTime - first <= elapsed {
      ReachIs(ticks, cursor + 1, first, elapsed);
    }
  }

  /** What the clock shows after the first k events: one step for every server tick. */
  function ReplayClock(cfg: Config, events: seq<Event>, k: nat): real
    requires k <= |events|
  {
    if k == 0 then 0.0 else ReplayClock(cfg, events, k - 1) + if events[k - 1].ServerTick? then cfg.step else 0.0
  }

  /** Offsets count from each algorithm's first tick. */
  ghost predicate OnClock(s: System, clock: real) {
    && s.Complete() && s.replay.elapsed == clock
    && forall a: Algo :: s.replay.cursor[a] > 0 ==> s.buffers[a] != [] && s.replay.first[a] == s.buffers[a][0].simTime
  }

  lemma StartOnClock(cfg: Config, s: System)
    requires Start(cfg, s)
    ensures OnClock(s, 0.0)
  {
    forall a: Algo | s.replay.cursor[a] > 0
      ensures s.buffers[a] != [] && s.replay.first[a] == s.buffers[a][0].simTime
    {
      var i := EveryAlgo(a);
      assert LaneStarted(cfg.segs, ROUTER_ORDER[i], s.buffers[a], s.replay, s.outbox[i]);
    }
  }

  lemma StepOnClock(cfg: Config, s: System, e: Event, t: System, clock: real)
    requires Inv(cfg, s) && OnClock(s, clock) && Step(cfg, s, e, t)
    ensures OnClock(t, clock + if e.ServerTick? then cfg.step else 0.0)
  {
    StepCompletes(cfg, s, e, t);
    if e.TakeTurn? {
      TurnOnClock(cfg, s, e, t, clock);
    }
  }

  lemma TurnOnClock(cfg: Config, s: System, e: Event, t: System, clock: real)
    requires Inv(cfg, s) && OnClock(s, clock) && Step(cfg, s, e, t) && e.TakeTurn?
    ensures OnClock(t, clock)
  {
    var algo := ROUTER_ORDER[s.phase.i];
    LanePassed(cfg, s, algo);
    forall a: Algo | t.replay.cursor[a] > 0
      ensures t.buffers[a] != [] && t.replay.first[a] == t.buffers[a][0].simTime
    {
      if a != algo {
        TurnOthers(cfg.segs, s.replay, algo, s.buffers[algo], e.next, e.frame, a);
      }
    }
  }

  lemma LinkOnClock(cfg: Config, run: seq<System>, events: seq<Event>, k: nat, clock: real)
    requires IsRun(cfg, run, events) && k < |events| && Inv(cfg, run[k]) && OnClock(run[k], clock)
    ensures OnClock(run[k + 1], clock + if events[k].ServerTick? then cfg.step else 0.0)
  {
    var s, e, t := StepAt(cfg, run, events, k);
    StepOnClock(cfg, s, e, t, clock);
  }

  lemma {:induction false} RunOnClock(cfg: Config, run: seq<System>, events: seq<Event>, k: nat)
    requires IsRun(cfg, run, events) && k < |run|
    ensures OnClock(run[k], ReplayClock(cfg, events, k))
  {
    if k > 0 {
      RunOnClock(cfg, run, events, k - 1);
      RunInv(cfg, run, events, k - 1);
      LinkOnClock(cfg, run, events, k - 1, ReplayClock(cfg, events, k - 1));
      return;
    }
    StartOnClock(cfg, run[0]);
  }

  /** From tick c a turn went on to tick n: all it passed were due by the clock, and the next one is not. */
  ghost predicate PassesDue(ticks: seq<AlgoTick>, c: nat, n: nat, clock: real) {
    && c <= n <= |ticks|
    && (forall j :: c <= j < n ==> Offset(ticks, j) <= clock)
    && (n < |ticks| ==> Offset(ticks, n) > clock)
  }

  lemma VisitPassesDue(segs: SegmentIndex, r: Replay, algo: Algo, ticks: seq<AlgoTick>, q: Replay, f: Option<Frame>)
    requires TurnTaken(segs, ticks, r, q, algo, f)
    requires ticks != [] ==> r.first[algo] == ticks[0].simTime
    ensures r.Complete() && q.Complete()
    ensures PassesDue(ticks, r.cursor[algo], q.cursor[algo], r.elapsed)
    ensures f.Some? <==> r.cursor[algo] < q.cursor[algo]
  {
    ReachIs(ticks, r.cursor[algo], r.first[algo], r.elapsed);
  }

  lemma StepPassesDue(cfg: Config, s: System, e: Event, t: System, clock: real)
    requires Inv(cfg, s) && OnClock(s, clock) && Step(cfg, s, e, t) && t.Complete() && e.TakeTurn?
    ensures s.phase.Turn? && s.phase.i < |ROUTER_ORDER|
    ensures var a := ROUTER_ORDER[s.phase.i];
      && PassesDue(s.buffers[a], s.replay.cursor[a], t.replay.cursor[a], clock)
      && (e.frame.Some? <==> s.replay.cursor[a] < t.replay.cursor[a])
  {
    var algo := ROUTER_ORDER[s.phase.i];
    assert LaneOk(cfg, s, algo);
    VisitPassesDue(cfg.segs, s.replay, algo, s.buffers[algo], e.next, e.frame);
  }

  /**
   Over every run: a turn passes exactly the ticks, from where its algorithm stood, whose offset from the
   algorithm's first tick the clock has reached, one step for each server tick so far; it sends a frame
   exactly when that is at least one.
   */
  lemma TurnPassesDue(cfg: Config, run: seq<System>, events: seq<Event>, k: nat)
    requires IsRun(cfg, run, events) && k < |events| && events[k].TakeTurn?
    ensures run[k].Complete() && run[k + 1].Complete() && run[k].phase.Turn? && run[k].phase.i < |ROUTER_ORDER|
    ensures var a := ROUTER_ORDER[run[k].phase.i];
      var c, n := run[k].replay.cursor[a], run[k + 1].replay.cursor[a];
      && PassesDue(run[k].buffers[a], c, n, ReplayClock(cfg, events, k))
      && (events[k].frame.Some? <==> c < n)
  {
    RunInv(cfg, run, events, k);
    RunOnClock(cfg, run, events, k);
    var s, e, t := StepAt(cfg, run, events, k);
    StepPassesDue(cfg, s, e, t, ReplayClock(cfg, events, k));
  }
}
