/** Every interleaving of producers, replay and client. */
module StreamRuns {
  import opened Results
  import opened Frames
  import opened CongestionClient
  import opened Stream

  datatype Config = Config(segs: SegmentIndex, step: real)

  /** Where the replay loop stands: waiting for a server tick, at some algorithm's turn, at the end check, ended. */
  datatype Phase = Idle | Turn(i: nat) | Checking | Stopped

  /**
   `outbox` is what the loop still has to write, `sent` what it has written, and `shown` what the
   client holds: at the start, and after each frame received.
   */
  datatype System = System(buffers: map<Algo, seq<AlgoTick>>, finished: bool, replay: Replay, outbox: seq<Frame>,
                           sent: seq<Frame>, shown: seq<CongestionState>, phase: Phase) {

    ghost predicate Complete() {
      replay.Complete() && |shown| > 0 && Client().Complete() && forall a: Algo :: a in buffers
    }

    function Client(): CongestionState
      requires |shown| > 0
    {
      shown[|shown| - 1]
    }

    /** What the client will hold once it has received everything in the outbox. */
    ghost function Ahead(): (c: CongestionState)
      requires Complete()
      ensures c.Complete()
    {
      After(Client(), outbox)
    }
  }

  /**
   A producer appends a tick or reports its end; the replay loop takes one atomic step: a server
   tick, one algorithm's turn, writing one frame, or the check for the end.
   */
  datatype Event =
    | Emit(tick: AlgoTick) | Finish | ServerTick | TakeTurn(frame: Option<Frame>, next: Replay) | Write | Check

  ghost predicate Drained(s: System)
    requires s.Complete()
  {
    forall a: Algo :: s.replay.cursor[a] >= |s.buffers[a]|
  }

  ghost predicate Step(cfg: Config, s: System, e: Event, t: System)
    requires s.Complete()
  {
    match e
    case Emit(tick) =>
      !s.finished && t == s.(buffers := s.buffers[tick.algo := s.buffers[tick.algo] + [tick]])
    case Finish =>
      !s.finished && t == s.(finished := true)
    case ServerTick =>
      && s.phase == Idle && s.outbox == []
      && t == s.(replay := s.replay.(elapsed := s.replay.elapsed + cfg.step), phase := Turn(0))
    case TakeTurn(frame, next) =>
      && s.phase.Turn? && s.phase.i < |ROUTER_ORDER|
      && TurnTaken(cfg.segs, s.buffers[ROUTER_ORDER[s.phase.i]], s.replay, next, ROUTER_ORDER[s.phase.i], frame)
      && t == s.(replay := next, outbox := s.outbox + Framed(frame),
                 phase := if s.phase.i + 1 < |ROUTER_ORDER| then Turn(s.phase.i + 1) else Checking)
    case Write =>
      && (s.phase == Idle || s.phase == Checking) && s.outbox != []
      && t == s.(outbox := s.outbox[1..], sent := s.sent + [s.outbox[0]],
                 shown := s.shown + [Reduced(s.Client(), s.outbox[0])])
    case Check =>
      && s.phase == Checking && s.outbox == []
      && t == s.(phase := if s.finished && Drained(s) then Stopped else Idle)
  }

  /** Streaming starts, with the snapshots to write, once every algorithm has a tick or the producer is through. */
  ghost predicate Start(cfg: Config, s: System) {
    && Injective(cfg.segs) && s.Complete() && s.phase == Idle
    && (s.finished || forall a: Algo :: s.buffers[a] != [])
    && Started(cfg.segs, s.buffers, s.replay, s.outbox) && s.sent == [] && s.shown == [Empty()]
  }

  ghost predicate Linked(cfg: Config, run: seq<System>, events: seq<Event>, k: nat)
    requires k < |events| && k + 1 < |run|
  {
    run[k].Complete() && Step(cfg, run[k], events[k], run[k + 1])
  }

  /** One interleaving: the states, and the events between them. */
  ghost predicate IsRun(cfg: Config, run: seq<System>, events: seq<Event>) {
    && |run| == |events| + 1 && Start(cfg, run[0])
    && forall k :: 0 <= k < |events| ==> Linked(cfg, run, events, k)
  }

  // ---- the invariant

  /** The client shows the bucketed state of the c-th tick of an algorithm. */
  ghost predicate ClientShows(cfg: Config, client: CongestionState, a: Algo, ticks: seq<AlgoTick>, c: nat)
    requires Injective(cfg.segs) && client.Complete() && c <= |ticks|
  {
    && client.buckets[a] == Shown(cfg.segs, ticks, c)
    && (c > 0 ==> client.tick[a] == ticks[c - 1].tick && client.simTime[a] == Some(ticks[c - 1].simTime)
                  && client.metrics[a] == Some(ticks[c - 1].metrics))
  }

  /** One algorithm's lane: cursor, last buckets and client, once it has everything, stand at the same tick. */
  ghost predicate Lane(cfg: Config, finished: bool, a: Algo, ticks: seq<AlgoTick>, c: nat, last: BucketMap,
                       client: CongestionState)
    requires Injective(cfg.segs) && client.Complete()
  {
    && c <= |ticks| && (c == 0 ==> finished && ticks == [])
    && last == Shown(cfg.segs, ticks, c) && ClientShows(cfg, client, a, ticks, c)
  }

  ghost predicate LaneOk(cfg: Config, s: System, a: Algo)
    requires Injective(cfg.segs) && s.Complete()
  {
    Lane(cfg, s.finished, a, s.buffers[a], s.replay.cursor[a], s.replay.last[a], s.Ahead())
  }

  ghost predicate Inv(cfg: Config, s: System) {
    && Injective(cfg.segs) && s.Complete()
    && (forall a: Algo :: LaneOk(cfg, s, a))
    && (s.phase == Stopped ==> s.finished && Drained(s) && s.outbox == [])
  }

  // ---- what a frame does to the client

  lemma SnapshotFolds(cfg: Config, client: CongestionState, a: Algo, ticks: seq<AlgoTick>, f: Frame)
    requires Injective(cfg.segs) && client.Complete() && IsSnapshot(cfg.segs, a, ticks, f)
    ensures ClientShows(cfg, Reduced(client, f), a, ticks, if ticks == [] then 0 else 1)
    ensures OthersSame(client, Reduced(client, f), a)
  {
    if ticks != [] {
      EntriesFold(cfg, map[], ticks[0].vc, f.segments);
    }
  }

  ghost predicate OthersSame(c: CongestionState, d: CongestionState, algo: Algo)
    requires c.Complete() && d.Complete()
  {
    forall b: Algo :: b != algo ==> SameSlot(c, d, b)
  }

  lemma DeltaFolds(cfg: Config, client: CongestionState, a: Algo, ticks: seq<AlgoTick>, c: nat, n: nat, f: Frame)
    requires Injective(cfg.segs) && client.Complete() && c < n <= |ticks| && ClientShows(cfg, client, a, ticks, c)
    requires IsDelta(cfg.segs, Shown(cfg.segs, ticks, c), ticks[n - 1], a, f)
    ensures ClientShows(cfg, Reduced(client, f), a, ticks, n)
    ensures OthersSame(client, Reduced(client, f), a)
  {
    EntriesFold(cfg, Shown(cfg.segs, ticks, c), ticks[n - 1].vc, f.changed);
  }

  /** Writing the changed entries over the last buckets gives the full bucketed state. */
  lemma EntriesFold(cfg: Config, last: BucketMap, vc: seq<real>, entries: seq<SegmentVC>)
    requires Injective(cfg.segs) && last.Keys <= Segments(cfg.segs, cfg.segs.Keys)
    requires Lists(entries, ChangedEntries(cfg.segs, cfg.segs.Keys, last, vc))
    ensures Written(last, entries, |entries|) == Bucketed(cfg.segs, vc)
  {
    var now := Written(last, entries, |entries|);
    forall id: string
      ensures id in now <==> id in Bucketed(cfg.segs, vc)
      ensures id in now ==> now[id] == Bucketed(cfg.segs, vc)[id]
    {
      EntryFolds(cfg, last, vc, entries, id);
    }
  }

  lemma EntryFolds(cfg: Config, last: BucketMap, vc: seq<real>, entries: seq<SegmentVC>, id: string)
    requires Injective(cfg.segs) && last.Keys <= Segments(cfg.segs, cfg.segs.Keys)
    requires Lists(entries, ChangedEntries(cfg.segs, cfg.segs.Keys, last, vc))
    ensures var now := Written(last, entries, |entries|);
      && (id in now <==> id in Bucketed(cfg.segs, vc))
      && (id in now ==> now[id] == Bucketed(cfg.segs, vc)[id])
  {
    WrittenAt(last, entries, |entries|, id);
    if i :| 0 <= i < |entries| && entries[i].segment == id {
      assert entries[i] in entries;
    } else if id in Segments(cfg.segs, cfg.segs.Keys) {
      var e: int :| e in cfg.segs && cfg.segs[e] == id;
      var entry := Entry(cfg.segs, vc, e);
      assert entry !in entries;
      assert entry !in ChangedEntries(cfg.segs, cfg.segs.Keys, last, vc);
    }
  }

  // ---- every step keeps the invariant

  /** What the client holds after the first n snapshots. */
  ghost function Opening(s: System, n: nat): (c: CongestionState)
    requires s.Complete() && n <= |s.outbox|
    ensures c.Complete()
  {
    After(s.Client(), s.outbox[..n])
  }

  /** What the n-th snapshot shows, and that the other algorithms keep showing what they did. */
  lemma SnapshotStep(cfg: Config, s: System, n: nat)
    requires Start(cfg, s) && n < |s.outbox|
    ensures |s.outbox| == |ROUTER_ORDER|
    ensures var algo := ROUTER_ORDER[n];
      && ClientShows(cfg, Opening(s, n + 1), algo, s.buffers[algo], if s.buffers[algo] == [] then 0 else 1)
      && OthersSame(Opening(s, n), Opening(s, n + 1), algo)
  {
    var algo := ROUTER_ORDER[n];
    assert LaneStarted(cfg.segs, algo, s.buffers[algo], s.replay, s.outbox[n]);
    AfterSnoc(s.Client(), s.outbox[..n], s.outbox[n]);
    assert s.outbox[..n + 1] == s.outbox[..n] + [s.outbox[n]];
    SnapshotFolds(cfg, Opening(s, n), algo, s.buffers[algo], s.outbox[n]);
  }

  lemma SameShows(cfg: Config, c: CongestionState, d: CongestionState, a: Algo, ticks: seq<AlgoTick>, n: nat)
    requires Injective(cfg.segs) && c.Complete() && d.Complete() && n <= |ticks|
    requires SameSlot(c, d, a)
    ensures ClientShows(cfg, c, a, ticks, n) <==> ClientShows(cfg, d, a, ticks, n)
  {
  }

  lemma KeepsShowing(cfg: Config, s: System, n: nat, i: nat)
    requires Start(cfg, s) && i < n < |s.outbox| == |ROUTER_ORDER|
    requires var a := ROUTER_ORDER[i];
      ClientShows(cfg, Opening(s, n), a, s.buffers[a], if s.buffers[a] == [] then 0 else 1)
    ensures var a := ROUTER_ORDER[i];
      ClientShows(cfg, Opening(s, n + 1), a, s.buffers[a], if s.buffers[a] == [] then 0 else 1)
  {
    SnapshotStep(cfg, s, n);
    OrderDistinct(i, n);
    var a := ROUTER_ORDER[i];
    SameShows(cfg, Opening(s, n), Opening(s, n + 1), a, s.buffers[a], if s.buffers[a] == [] then 0 else 1);
  }

  lemma {:induction false} SnapshotsFold(cfg: Config, s: System, n: nat, i: nat)
    requires Start(cfg, s) && i < n <= |s.outbox| == |ROUTER_ORDER|
    ensures var a := ROUTER_ORDER[i];
      ClientShows(cfg, Opening(s, n), a, s.buffers[a], if s.buffers[a] == [] then 0 else 1)
  {
    if i < n - 1 {
      SnapshotsFold(cfg, s, n - 1, i);
      KeepsShowing(cfg, s, n - 1, i);
    } else {
      SnapshotStep(cfg, s, n - 1);
    }
  }

  lemma LaneStart(cfg: Config, s: System, i: nat)
    requires Start(cfg, s) && i < |ROUTER_ORDER|
    ensures LaneOk(cfg, s, ROUTER_ORDER[i])
  {
    assert LaneStarted(cfg.segs, ROUTER_ORDER[i], s.buffers[ROUTER_ORDER[i]], s.replay, s.outbox[i]);
    SnapshotsFold(cfg, s, |s.outbox|, i);
    assert s.outbox[..|s.outbox|] == s.outbox;
  }

  lemma StartInv(cfg: Config, s: System)
    requires Start(cfg, s)
    ensures Inv(cfg, s)
  {
    forall a: Algo
      ensures LaneOk(cfg, s, a)
    {
      var i := EveryAlgo(a);
      LaneStart(cfg, s, i);
    }
  }

  /** A delta brings its algorithm's lane, server and client, to the tick it reached. */
  lemma LaneAdvances(cfg: Config, finished: bool, a: Algo, ticks: seq<AlgoTick>, c: nat, last: BucketMap,
                     client: CongestionState, n: nat, now: BucketMap, f: Frame)
    requires Injective(cfg.segs) && client.Complete() && Lane(cfg, finished, a, ticks, c, last, client)
    requires c < n <= |ticks| && UpdatedOver(cfg.segs, cfg.segs.Keys, last, ticks[n - 1].vc, now)
    requires IsDelta(cfg.segs, last, ticks[n - 1], a, f)
    ensures Lane(cfg, finished, a, ticks, n, now, Reduced(client, f)) && OthersSame(client, Reduced(client, f), a)
  {
    DeltaFolds(cfg, client, a, ticks, c, n, f);
    UpdatedIsBucketed(cfg.segs, last, ticks[n - 1].vc, now);
  }

  lemma LaneStays(cfg: Config, finished: bool, a: Algo, ticks: seq<AlgoTick>, c: nat, last: BucketMap,
                  client: CongestionState, next: CongestionState)
    requires Injective(cfg.segs) && client.Complete() && next.Complete() && SameSlot(client, next, a)
    requires Lane(cfg, finished, a, ticks, c, last, client)
    ensures Lane(cfg, finished, a, ticks, c, last, next)
  {
  }

  /** A turn that sends a delta: the algorithm's own lane. */
  lemma DeltaTurn(cfg: Config, finished: bool, algo: Algo, ticks: seq<AlgoTick>, r: Replay, ahead: CongestionState,
                  f: Frame, next: Replay)
    requires Injective(cfg.segs) && ahead.Complete() && TurnTaken(cfg.segs, ticks, r, next, algo, Some(f))
    requires r.Complete() && Lane(cfg, finished, algo, ticks, r.cursor[algo], r.last[algo], ahead)
    ensures next.Complete() && Lane(cfg, finished, algo, ticks, next.cursor[algo], next.last[algo], Reduced(ahead, f))
    ensures OthersSame(ahead, Reduced(ahead, f), algo)
  {
    SentTurn(cfg.segs, r, algo, ticks, next, f);
    LaneAdvances(cfg, finished, algo, ticks, r.cursor[algo], r.last[algo], ahead,
                 next.cursor[algo], next.last[algo], f);
  }

  /** And every other lane. */
  lemma OtherTurn(cfg: Config, s: System, algo: Algo, f: Option<Frame>, next: Replay, ahead: CongestionState, a: Algo)
    requires Injective(cfg.segs) && s.Complete() && LaneOk(cfg, s, a) && a != algo
    requires TurnTaken(cfg.segs, s.buffers[algo], s.replay, next, algo, f)
    requires ahead.Complete() && SameSlot(s.Ahead(), ahead, a)
    ensures next.Complete()
    ensures Lane(cfg, s.finished, a, s.buffers[a], next.cursor[a], next.last[a], ahead)
  {
    TurnOthers(cfg.segs, s.replay, algo, s.buffers[algo], next, f, a);
    LaneStays(cfg, s.finished, a, s.buffers[a], s.replay.cursor[a], s.replay.last[a], s.Ahead(), ahead);
  }

  lemma SentTurn(segs: SegmentIndex, r: Replay, algo: Algo, ticks: seq<AlgoTick>, q: Replay, f: Frame)
    requires TurnTaken(segs, ticks, r, q, algo, Some(f))
    ensures r.Complete() && q.Complete() && r.cursor[algo] < q.cursor[algo] <= |ticks|
    ensures var tick := ticks[q.cursor[algo] - 1];
      && UpdatedOver(segs, segs.Keys, r.last[algo], tick.vc, q.last[algo])
      && IsDelta(segs, r.last[algo], tick, algo, f)
  {
  }

  lemma TurnOthers(segs: SegmentIndex, r: Replay, algo: Algo, ticks: seq<AlgoTick>, q: Replay,
                   f: Option<Frame>, a: Algo)
    requires TurnTaken(segs, ticks, r, q, algo, f) && a != algo
    ensures r.Complete() && q.Complete() && q.cursor[a] == r.cursor[a] && q.last[a] == r.last[a]
  {
  }

  /** A turn that sends nothing has moved nothing. */
  lemma QuietTurn(segs: SegmentIndex, r: Replay, algo: Algo, ticks: seq<AlgoTick>, q: Replay)
    requires TurnTaken(segs, ticks, r, q, algo, None)
    ensures q == r
  {
  }

  /** A frame is added behind what is ahead of the client. */
  lemma SentAhead(s: System, f: Frame, t: System)
    requires s.Complete() && t.Complete() && t.shown == s.shown && t.outbox == s.outbox + [f]
    ensures t.Ahead() == Reduced(s.Ahead(), f)
  {
    assert t.Client() == s.Client();
    AfterSnoc(s.Client(), s.outbox, f);
  }

  /** Writing a frame changes nothing ahead of the client. */
  lemma WriteAhead(s: System, t: System)
    requires s.Complete() && t.Complete() && s.outbox != [] && t.outbox == s.outbox[1..]
    requires t.shown == s.shown + [Reduced(s.Client(), s.outbox[0])]
    ensures t.Ahead() == s.Ahead()
  {
    AfterFirst(s.Client(), s.outbox);
  }

  lemma SameAhead(s: System, t: System)
    requires s.Complete() && t.Complete() && t.outbox == s.outbox && t.shown == s.shown
    ensures t.Ahead() == s.Ahead()
  {
    assert t.Client() == s.Client();
  }

  lemma StepCompletes(cfg: Config, s: System, e: Event, t: System)
    requires s.Complete() && Step(cfg, s, e, t)
    ensures t.Complete()
  {
  }

  /** One lane over one turn. */
  lemma TurnKeepsLane(cfg: Config, s: System, e: Event, t: System, a: Algo)
    requires Inv(cfg, s) && Step(cfg, s, e, t) && e.TakeTurn? && t.Complete()
    ensures LaneOk(cfg, t, a)
  {
    var algo := ROUTER_ORDER[s.phase.i];
    assert LaneOk(cfg, s, algo) && LaneOk(cfg, s, a);
    if e.frame == None {
      QuietTurn(cfg.segs, s.replay, algo, s.buffers[algo], e.next);
      SameAhead(s, t);
      return;
    }
    var f := e.frame.value;
    SentAhead(s, f, t);
    DeltaTurn(cfg, s.finished, algo, s.buffers[algo], s.replay, s.Ahead(), f, e.next);
    if a != algo {
      OtherTurn(cfg, s, algo, e.frame, e.next, t.Ahead(), a);
    }
  }

  /** One lane over any other step. */
  lemma StepKeepsLane(cfg: Config, s: System, e: Event, t: System, a: Algo)
    requires Inv(cfg, s) && Step(cfg, s, e, t) && !e.TakeTurn? && t.Complete()
    ensures LaneOk(cfg, t, a)
  {
    assert LaneOk(cfg, s, a);
    if e.Write? {
      WriteAhead(s, t);
      return;
    }
    SameAhead(s, t);
  }

  lemma StepInv(cfg: Config, s: System, e: Event, t: System)
    requires Inv(cfg, s) && Step(cfg, s, e, t)
    ensures Inv(cfg, t)
  {
    StepCompletes(cfg, s, e, t);
    forall a: Algo
      ensures LaneOk(cfg, t, a)
    {
      if e.TakeTurn? {
        TurnKeepsLane(cfg, s, e, t, a);
      } else {
        StepKeepsLane(cfg, s, e, t, a);
      }
    }
  }

  lemma LinkInv(cfg: Config, run: seq<System>, events: seq<Event>, k: nat)
    requires k < |events| && k + 1 < |run| && Linked(cfg, run, events, k) && Inv(cfg, run[k])
    ensures Inv(cfg, run[k + 1])
  {
    StepInv(cfg, run[k], events[k], run[k + 1]);
  }

  lemma {:induction false} RunInv(cfg: Config, run: seq<System>, events: seq<Event>, k: nat)
    requires IsRun(cfg, run, events) && k < |run|
    ensures Inv(cfg, run[k])
  {
    if k > 0 {
      RunInv(cfg, run, events, k - 1);
      LinkInv(cfg, run, events, k - 1);
      return;
    }
    StartInv(cfg, run[0]);
  }

  /** The client's states are the fold of the frames sent, over the whole run. */
  lemma {:induction false} ClientFoldsFrames(cfg: Config, run: seq<System>, events: seq<Event>, k: nat)
    requires IsRun(cfg, run, events) && k < |run|
    ensures IsFold(run[k].sent, run[k].shown)
  {
    if k > 0 {
      ClientFoldsFrames(cfg, run, events, k - 1);
      assert Linked(cfg, run, events, k - 1);
      StepFolds(cfg, run[k - 1], events[k - 1], run[k]);
    }
  }

  lemma StepFolds(cfg: Config, s: System, e: Event, t: System)
    requires s.Complete() && Step(cfg, s, e, t) && IsFold(s.sent, s.shown)
    ensures IsFold(t.sent, t.shown)
  {
    if e.Write? {
      FoldSnoc(s.sent, s.shown, s.outbox[0], Reduced(s.Client(), s.outbox[0]));
    }
  }

  // ---- the protocol's promises, over every interleaving

  /**
   With the frames in transit folded in, the client shows for each algorithm exactly the bucketed
   state of the last tick passed; and it shows that already when none of those frames is the
   algorithm's, as between two rounds.
   */
  lemma ClientTracksServer(cfg: Config, run: seq<System>, events: seq<Event>, k: nat, a: Algo)
    requires IsRun(cfg, run, events) && k < |run|
    ensures Injective(cfg.segs) && run[k].Complete() && run[k].replay.cursor[a] <= |run[k].buffers[a]|
    ensures ClientShows(cfg, run[k].Ahead(), a, run[k].buffers[a], run[k].replay.cursor[a])
    ensures NoneFor(run[k].outbox, a) ==>
      ClientShows(cfg, run[k].Client(), a, run[k].buffers[a], run[k].replay.cursor[a])
  {
    var s := run[k];
    RunInv(cfg, run, events, k);
    assert LaneOk(cfg, s, a);
    if NoneFor(s.outbox, a) {
      AfterOthers(s.Client(), s.outbox, a);
      SameShows(cfg, s.Client(), s.Ahead(), a, s.buffers[a], s.replay.cursor[a]);
    }
  }

  /**
   A delta carries exactly the segments whose bucket differs between the tick last passed and the
   tick it jumps to, however many ticks the jump passes over.
   */
  lemma DeltaIsExact(cfg: Config, run: seq<System>, events: seq<Event>, k: nat, seg: string)
    requires IsRun(cfg, run, events) && k < |events| && events[k].TakeTurn? && events[k].frame.Some?
    ensures Injective(cfg.segs) && run[k].Complete() && run[k + 1].Complete() && events[k].frame.value.Delta?
    ensures var a := events[k].frame.value.algo;
      var ticks, c, n := run[k].buffers[a], run[k].replay.cursor[a], run[k + 1].replay.cursor[a];
      && c < n <= |ticks|
      && (IsListed(events[k].frame.value.changed, seg)
          <==> DiffersAt(Shown(cfg.segs, ticks, c), Shown(cfg.segs, ticks, n), seg))
  {
    RunInv(cfg, run, events, k);
    assert Linked(cfg, run, events, k);
    RunInv(cfg, run, events, k + 1);
    var s, algo := run[k], ROUTER_ORDER[run[k].phase.i];
    assert LaneOk(cfg, s, algo);
    ExactTurn(cfg, s, algo, events[k].frame.value, events[k].next, seg);
  }

  lemma ExactTurn(cfg: Config, s: System, algo: Algo, f: Frame, next: Replay, seg: string)
    requires Injective(cfg.segs) && s.Complete() && LaneOk(cfg, s, algo)
    requires TurnTaken(cfg.segs, s.buffers[algo], s.replay, next, algo, Some(f))
    ensures f.Delta? && f.algo == algo && s.replay.cursor[algo] < next.cursor[algo] <= |s.buffers[algo]|
    ensures IsListed(f.changed, seg) <==> DiffersAt(Shown(cfg.segs, s.buffers[algo], s.replay.cursor[algo]),
                                                    Shown(cfg.segs, s.buffers[algo], next.cursor[algo]), seg)
  {
    SentTurn(cfg.segs, s.replay, algo, s.buffers[algo], next, f);
    ListedIffChanged(cfg, s.replay.last[algo], s.buffers[algo][next.cursor[algo] - 1].vc, f.changed, seg);
  }

  ghost predicate IsListed(entries: seq<SegmentVC>, seg: string) {
    exists i :: 0 <= i < |entries| && entries[i].segment == seg
  }

  /** The bucket of a segment changes, or the segment appears. */
  ghost predicate DiffersAt(before: BucketMap, now: BucketMap, seg: string) {
    seg in now && (seg !in before || before[seg] != now[seg])
  }

  lemma ListedIffChanged(cfg: Config, last: BucketMap, vc: seq<real>, entries: seq<SegmentVC>, seg: string)
    requires Injective(cfg.segs) && Lists(entries, ChangedEntries(cfg.segs, cfg.segs.Keys, last, vc))
    ensures IsListed(entries, seg) <==> DiffersAt(last, Bucketed(cfg.segs, vc), seg)
  {
    if i :| 0 <= i < |entries| && entries[i].segment == seg {
      assert entries[i] in entries;
    }
    if DiffersAt(last, Bucketed(cfg.segs, vc), seg) {
      var e: int :| e in cfg.segs && cfg.segs[e] == seg;
      var entry := Entry(cfg.segs, vc, e);
      assert entry in ChangedEntries(cfg.segs, cfg.segs.Keys, last, vc);
      assert entry in entries;
      var i :| 0 <= i < |entries| && entries[i] == entry;
    }
  }

  /** The stream ends only after the producer did, and then the client shows every algorithm's last tick. */
  lemma StoppedIsComplete(cfg: Config, run: seq<System>, events: seq<Event>, k: nat, a: Algo)
    requires IsRun(cfg, run, events) && k < |run| && run[k].phase == Stopped
    ensures run[k].finished && Injective(cfg.segs) && run[k].Complete()
    ensures run[k].replay.cursor[a] == |run[k].buffers[a]|
    ensures ClientShows(cfg, run[k].Client(), a, run[k].buffers[a], |run[k].buffers[a]|)
  {
    RunInv(cfg, run, events, k);
    ClientTracksServer(cfg, run, events, k, a);
  }

  lemma NoStepAfterStop(cfg: Config, s: System, e: Event, t: System)
    requires Inv(cfg, s) && Step(cfg, s, e, t)
    ensures s.phase != Stopped
  {
  }

  /** Nothing follows the end: no tick, no frame. */
  lemma StoppedIsFinal(cfg: Config, run: seq<System>, events: seq<Event>, k: nat)
    requires IsRun(cfg, run, events) && k < |run| && run[k].phase == Stopped
    ensures k == |run| - 1
  {
    RunInv(cfg, run, events, k);
    if k < |events| {
      assert Linked(cfg, run, events, k);
      NoStepAfterStop(cfg, run[k], events[k], run[k + 1]);
    }
  }

  // ---- and such runs exist

  /** Opening a replay over buffers that are ready gives a state to start from. */
  method OpenStream(cfg: Config, buffers: map<Algo, seq<AlgoTick>>, finished: bool)
    returns (rs: ReplayState, start: System)
    requires Injective(cfg.segs) && forall a: Algo :: a in buffers
    requires finished || forall a: Algo :: buffers[a] != []
    ensures fresh(rs) && rs.simSecondsPerServerTick == cfg.step
    ensures start.buffers == buffers && start.finished == finished && start.replay == rs.View()
    ensures IsRun(cfg, [start], [])
  {
    var snapshots;
    rs, snapshots := NewReplayState(cfg.segs, buffers, cfg.step);
    var client := EmptyCongestionState();
    start := System(buffers, finished, rs.View(), snapshots, [], [client], Idle);
  }
}
