/** Once the producer is through, every interleaving of the stream ends, and by when. */
module StreamEndings {
  import opened Results
  import opened Frames
  import opened CongestionClient
  import opened Stream
  import opened StreamRuns

  /** The server ticks among events k..j. */
  ghost function ServerTicks(events: seq<Event>, k: nat, j: nat): nat
    requires k <= j <= |events|
    decreases j
  {
    if k == j then 0 else ServerTicks(events, k, j - 1) + if events[j - 1].ServerTick? then 1 else 0
  }

  /** The most steps a server tick can start: itself, six turns, six frames to write, and the end check. */
  const ROUND := 14

  /** How many steps at most are left before the next server tick. */
  function Left(s: System): int {
    |s.outbox| + match s.phase
      case Idle => 0
      case Turn(i) => 2 * (|ROUTER_ORDER| - i) + 1
      case Checking => 1
      case Stopped => 0
  }

  /** Each turn taken has put at most one frame into the outbox. */
  ghost predicate PhaseOk(s: System) {
    && |s.outbox| <= |ROUTER_ORDER|
    && (s.phase.Turn? ==> |s.outbox| <= s.phase.i < |ROUTER_ORDER|)
    && (s.phase == Stopped ==> s.outbox == [])
  }

  /** A state the producer can finish in. */
  ghost predicate Startable(s: System) {
    s.Complete() && PhaseOk(s) && Within(s.replay, s.buffers)
  }

  /** t comes c server ticks after s, with no tick produced in between. */
  ghost predicate Since(cfg: Config, s: System, t: System, c: nat)
    requires s.Complete() && t.Complete()
  {
    && t.finished && t.buffers == s.buffers && t.replay.first == s.replay.first
    && t.replay.elapsed == ClockAfter(s.replay.elapsed, cfg.step, c)
    && forall a: Algo :: t.replay.cursor[a] >= s.replay.cursor[a]
  }

  ghost predicate LaneDrained(s: System, i: nat)
    requires s.Complete() && i < |ROUTER_ORDER|
  {
    s.replay.cursor[ROUTER_ORDER[i]] == |s.buffers[ROUTER_ORDER[i]]|
  }

  /** In a round whose clock is past every tick: whoever has had a turn is through, and no further round follows. */
  ghost predicate LastRound(s: System)
    requires s.Complete()
  {
    match s.phase
    case Idle => false
    case Turn(n) => forall i :: 0 <= i < n && i < |ROUTER_ORDER| ==> LaneDrained(s, i)
    case Checking => forall i :: 0 <= i < |ROUTER_ORDER| ==> LaneDrained(s, i)
    case Stopped => true
  }

  lemma InvIsWithin(cfg: Config, s: System)
    requires Inv(cfg, s)
    ensures Within(s.replay, s.buffers)
  {
    forall a: Algo
      ensures s.replay.cursor[a] <= |s.buffers[a]|
    {
      assert LaneOk(cfg, s, a);
    }
  }

  lemma StepPhase(cfg: Config, s: System, e: Event, t: System)
    requires s.Complete() && Step(cfg, s, e, t) && PhaseOk(s)
    ensures PhaseOk(t)
    ensures !e.Emit? && !e.Finish? ==> Left(t) < Left(s) + (if e.ServerTick? then ROUND else 0)
  {
  }

  lemma StepMovesCursors(cfg: Config, s: System, e: Event, t: System)
    requires Inv(cfg, s) && Step(cfg, s, e, t) && t.Complete()
    ensures forall a: Algo :: t.replay.cursor[a] >= s.replay.cursor[a]
    ensures t.replay.first == s.replay.first
    ensures t.replay.elapsed == s.replay.elapsed + (if e.ServerTick? then cfg.step else 0.0)
  {
    if e.TakeTurn? {
      var algo := ROUTER_ORDER[s.phase.i];
      TurnMoves(cfg.segs, s.replay, algo, s.buffers[algo], e.next, e.frame, algo);
      forall a: Algo
        ensures t.replay.cursor[a] >= s.replay.cursor[a]
      {
        TurnMoves(cfg.segs, s.replay, algo, s.buffers[algo], e.next, e.frame, a);
      }
    }
  }

  /** What one step does after the producer has finished. */
  lemma StepAfterFinish(cfg: Config, s: System, e: Event, t: System)
    requires Inv(cfg, s) && Step(cfg, s, e, t) && s.finished && PhaseOk(s)
    ensures t.Complete() && PhaseOk(t) && t.finished && t.buffers == s.buffers && t.replay.first == s.replay.first
    ensures t.replay.elapsed == s.replay.elapsed + (if e.ServerTick? then cfg.step else 0.0)
    ensures forall a: Algo :: t.replay.cursor[a] >= s.replay.cursor[a]
    ensures Left(t) < Left(s) + (if e.ServerTick? then ROUND else 0)
    ensures e.ServerTick? ==> s.phase == Idle
  {
    StepCompletes(cfg, s, e, t);
    StepPhase(cfg, s, e, t);
    StepMovesCursors(cfg, s, e, t);
  }

  /** A turn in the last round drains its own algorithm and disturbs no other. */
  lemma TurnInLastRound(cfg: Config, s: System, e: Event, t: System, i: nat)
    requires Inv(cfg, s) && Step(cfg, s, e, t) && e.TakeTurn? && t.Complete() && i <= s.phase.i < |ROUTER_ORDER|
    requires i < s.phase.i ==> LaneDrained(s, i)
    requires var a := ROUTER_ORDER[s.phase.i];
      RestDue(s.buffers[a], s.replay.cursor[a], s.replay.first[a], s.replay.elapsed)
    ensures LaneDrained(t, i)
  {
    var algo, a := ROUTER_ORDER[s.phase.i], ROUTER_ORDER[i];
    InvIsWithin(cfg, s);
    TurnMoves(cfg.segs, s.replay, algo, s.buffers[algo], e.next, e.frame, a);
    ReachesAllIff(s.buffers[algo], s.replay.cursor[algo], s.replay.first[algo], s.replay.elapsed);
    if i < s.phase.i {
      OrderDistinct(i, s.phase.i);
    }
  }

  /** The last round stays the last round, over a turn, over a frame written, and over the end check. */
  lemma TurnStaysLast(cfg: Config, start: System, s: System, e: Event, t: System, c: nat)
    requires Inv(cfg, s) && Step(cfg, s, e, t) && PhaseOk(s) && t.Complete() && e.TakeTurn?
    requires Startable(start) && Since(cfg, start, s, c)
    requires AllDue(start.replay, start.buffers, s.replay.elapsed) && LastRound(s)
    ensures LastRound(t)
  {
    var algo := ROUTER_ORDER[s.phase.i];
    assert RestDue(start.buffers[algo], start.replay.cursor[algo], start.replay.first[algo], s.replay.elapsed);
    forall i | 0 <= i <= s.phase.i
      ensures LaneDrained(t, i)
    {
      TurnInLastRound(cfg, s, e, t, i);
    }
  }

  lemma WriteStaysLast(cfg: Config, s: System, t: System)
    requires s.Complete() && Step(cfg, s, Write, t) && t.Complete() && LastRound(s)
    ensures LastRound(t)
  {
    forall i | 0 <= i < |ROUTER_ORDER|
      ensures LaneDrained(t, i)
    {
      assert LaneDrained(s, i);
    }
  }

  lemma CheckEndsLast(cfg: Config, s: System, t: System)
    requires s.Complete() && Step(cfg, s, Check, t) && t.Complete() && LastRound(s) && s.finished
    ensures LastRound(t)
  {
    forall a: Algo
      ensures s.replay.cursor[a] >= |s.buffers[a]|
    {
      var i := EveryAlgo(a);
      assert LaneDrained(s, i);
    }
  }

  lemma LastRoundStays(cfg: Config, start: System, s: System, e: Event, t: System, c: nat)
    requires Inv(cfg, s) && Step(cfg, s, e, t) && PhaseOk(s) && t.Complete() && s.finished && !e.ServerTick?
    requires Startable(start) && Since(cfg, start, s, c)
    requires AllDue(start.replay, start.buffers, s.replay.elapsed) && LastRound(s)
    ensures LastRound(t)
  {
    match e
    case TakeTurn(_, _) => TurnStaysLast(cfg, start, s, e, t, c);
    case Write => WriteStaysLast(cfg, s, t);
    case Check => CheckEndsLast(cfg, s, t);
  }

  /** From `left` steps to go, `steps` steps with c server ticks among them leave at most `now` to go. */
  predicate WithinRounds(steps: int, left: int, c: nat, now: int) {
    steps + now <= ROUND * c + left
  }

  lemma StepsBound(steps: int, left: int, c: nat, now: int, rounds: nat)
    requires WithinRounds(steps, left, c, now) && left < ROUND && now >= 0 && c <= rounds
    ensures steps < ROUND * (rounds + 1)
  {
  }

  lemma LeftInRound(s: System)
    requires PhaseOk(s)
    ensures 0 <= Left(s) < ROUND
  {
  }

  /** After n server ticks the clock is past every tick. */
  ghost predicate DueAfter(cfg: Config, start: System, n: nat)
    requires Startable(start)
  {
    AllDue(start.replay, start.buffers, ClockAfter(start.replay.elapsed, cfg.step, n))
  }

  /** Everything the count of server ticks after k rests on; only a tick that was needed was followed by another. */
  ghost predicate Progress(cfg: Config, start: System, s: System, c: nat, steps: nat)
    requires cfg.step > 0.0 && Startable(start)
  {
    && s.Complete() && PhaseOk(s)
    && Since(cfg, start, s, c) && (c > 1 ==> !DueAfter(cfg, start, c - 1))
    && WithinRounds(steps, Left(start), c, Left(s))
    && (c > 0 && AllDue(start.replay, start.buffers, s.replay.elapsed) ==> LastRound(s))
  }

  lemma ProgressStart(cfg: Config, s: System)
    requires Startable(s) && s.finished && cfg.step > 0.0
    ensures Progress(cfg, s, s, 0, 0)
  {
    ClockSteps(s.replay.elapsed, cfg.step, 0);
  }

  lemma ProgressBounds(cfg: Config, start: System, s: System, c: nat, steps: nat)
    requires cfg.step > 0.0 && Startable(start) && Progress(cfg, start, s, c, steps)
    ensures var rounds := TicksToDrain(start.replay, start.buffers, cfg.step);
      c <= rounds && steps < ROUND * (rounds + 1)
  {
    LeftInRound(start);
    LeftInRound(s);
    if c > 1 {
      TicksToDrainIs(start.replay, start.buffers, cfg.step, c - 1);
    }
    StepsBound(steps, Left(start), c, Left(s), TicksToDrain(start.replay, start.buffers, cfg.step));
  }

  lemma TickProgress(cfg: Config, start: System, s: System, e: Event, t: System, c: nat, steps: nat)
    requires Inv(cfg, s) && Step(cfg, s, e, t) && cfg.step > 0.0 && Startable(start) && e.ServerTick?
    requires Progress(cfg, start, s, c, steps)
    ensures Progress(cfg, start, t, c + 1, steps + 1)
  {
    StepAfterFinish(cfg, s, e, t);
    ClockSteps(start.replay.elapsed, cfg.step, c);
  }

  lemma OtherProgress(cfg: Config, start: System, s: System, e: Event, t: System, c: nat, steps: nat)
    requires Inv(cfg, s) && Step(cfg, s, e, t) && cfg.step > 0.0 && Startable(start) && !e.ServerTick?
    requires Progress(cfg, start, s, c, steps)
    ensures Progress(cfg, start, t, c, steps + 1)
  {
    StepAfterFinish(cfg, s, e, t);
    if c > 0 && AllDue(start.replay, start.buffers, s.replay.elapsed) {
      LastRoundStays(cfg, start, s, e, t, c);
    }
  }

  lemma {:induction false} PhasesOk(cfg: Config, run: seq<System>, events: seq<Event>, k: nat)
    requires IsRun(cfg, run, events) && k < |run|
    ensures PhaseOk(run[k])
  {
    if k > 0 {
      PhasesOk(cfg, run, events, k - 1);
      assert Linked(cfg, run, events, k - 1);
      StepPhase(cfg, run[k - 1], events[k - 1], run[k]);
    }
  }

  lemma RunStep(cfg: Config, run: seq<System>, events: seq<Event>, k: nat)
    requires IsRun(cfg, run, events) && k < |events|
    ensures Inv(cfg, run[k]) && Step(cfg, run[k], events[k], run[k + 1])
  {
    RunInv(cfg, run, events, k);
    assert Linked(cfg, run, events, k);
  }

  /** How far state j of a run is from state k. */
  ghost predicate ProgressAt(cfg: Config, run: seq<System>, events: seq<Event>, k: nat, j: nat)
    requires cfg.step > 0.0 && k <= j < |run| == |events| + 1 && Startable(run[k])
  {
    Progress(cfg, run[k], run[j], ServerTicks(events, k, j), j - k)
  }

  lemma ProgressNext(cfg: Config, run: seq<System>, events: seq<Event>, k: nat, j: nat)
    requires IsRun(cfg, run, events) && cfg.step > 0.0 && k <= j < |events|
    requires Startable(run[k]) && ProgressAt(cfg, run, events, k, j)
    ensures ProgressAt(cfg, run, events, k, j + 1)
  {
    RunStep(cfg, run, events, j);
    if events[j].ServerTick? {
      TickProgress(cfg, run[k], run[j], events[j], run[j + 1], ServerTicks(events, k, j), j - k);
      return;
    }
    OtherProgress(cfg, run[k], run[j], events[j], run[j + 1], ServerTicks(events, k, j), j - k);
  }

  lemma {:induction false} RunProgress(cfg: Config, run: seq<System>, events: seq<Event>, k: nat, j: nat)
    requires IsRun(cfg, run, events) && cfg.step > 0.0 && k <= j < |run| && run[k].finished && Startable(run[k])
    ensures ProgressAt(cfg, run, events, k, j)
    decreases j
  {
    if k < j {
      RunProgress(cfg, run, events, k, j - 1);
      ProgressNext(cfg, run, events, k, j - 1);
      return;
    }
    ProgressStart(cfg, run[k]);
  }

  lemma StartableAt(cfg: Config, run: seq<System>, events: seq<Event>, k: nat)
    requires IsRun(cfg, run, events) && k < |run|
    ensures Startable(run[k])
  {
    RunInv(cfg, run, events, k);
    PhasesOk(cfg, run, events, k);
    InvIsWithin(cfg, run[k]);
  }

  /**
   Wherever in a round the producer finishes, no more server ticks follow than it takes the clock
   to reach the last tick (one at least), and so fewer steps than fourteen for each and for the
   round begun.
   */
  lemma ReplayEnds(cfg: Config, run: seq<System>, events: seq<Event>, k: nat)
    requires IsRun(cfg, run, events) && cfg.step > 0.0 && k < |run| && run[k].finished
    ensures run[k].Complete() && Within(run[k].replay, run[k].buffers)
    ensures var rounds := TicksToDrain(run[k].replay, run[k].buffers, cfg.step);
      ServerTicks(events, k, |events|) <= rounds && |events| - k < ROUND * (rounds + 1)
  {
    StartableAt(cfg, run, events, k);
    RunProgress(cfg, run, events, k, |events|);
    ProgressBounds(cfg, run[k], run[|events|], ServerTicks(events, k, |events|), |events| - k);
  }

  // ---- and until then the replay can always go on

  lemma {:induction false} ListingExists(s: set<SegmentVC>) returns (list: seq<SegmentVC>)
    requires forall x, y :: x in s && y in s && x.segment == y.segment ==> x == y
    ensures Lists(list, s)
    decreases s
  {
    list := [];
    if s != {} {
      var x :| x in s;
      var rest := ListingExists(s - {x});
      forall i | 0 <= i < |rest|
        ensures rest[i].segment != x.segment
      {
        assert rest[i] in rest;
      }
      InsertKeepsOrder(rest, x);
      list := InsertById(rest, x);
    }
  }

  lemma BucketedIsUpdate(segs: SegmentIndex, last: BucketMap, vc: seq<real>)
    requires Injective(segs) && last.Keys <= Segments(segs, segs.Keys)
    ensures UpdatedOver(segs, segs.Keys, last, vc, Bucketed(segs, vc))
  {
  }

  lemma TurnExists(segs: SegmentIndex, r: Replay, algo: Algo, ticks: seq<AlgoTick>)
    returns (q: Replay, f: Option<Frame>)
    requires Injective(segs) && r.Complete() && r.cursor[algo] <= |ticks|
    requires r.last[algo].Keys <= Segments(segs, segs.Keys)
    ensures TurnTaken(segs, ticks, r, q, algo, f)
  {
    var n := Reach(ticks, r.cursor[algo], r.first[algo], r.elapsed);
    if n == r.cursor[algo] {
      q, f := r, None;
    } else {
      var tick := ticks[n - 1];
      var changed := ListingExists(ChangedEntries(segs, segs.Keys, r.last[algo], tick.vc));
      BucketedIsUpdate(segs, r.last[algo], tick.vc);
      q := r.(cursor := r.cursor[algo := n], last := r.last[algo := Bucketed(segs, tick.vc)]);
      f := Some(Delta(algo, tick.tick, tick.simTime, changed, tick.metrics));
    }
  }

  lemma TurnPossible(cfg: Config, s: System) returns (e: Event, t: System)
    requires Inv(cfg, s) && s.phase.Turn? && s.phase.i < |ROUTER_ORDER|
    ensures Step(cfg, s, e, t) && e.TakeTurn?
  {
    var i, algo := s.phase.i, ROUTER_ORDER[s.phase.i];
    assert LaneOk(cfg, s, algo);
    var next, frame := TurnExists(cfg.segs, s.replay, algo, s.buffers[algo]);
    e := TakeTurn(frame, next);
    t := s.(replay := next, outbox := s.outbox + Framed(frame),
            phase := if i + 1 < |ROUTER_ORDER| then Turn(i + 1) else Checking);
  }

  lemma WritePossible(cfg: Config, s: System) returns (t: System)
    requires s.Complete() && (s.phase == Idle || s.phase == Checking) && s.outbox != []
    ensures Step(cfg, s, Write, t)
  {
    t := s.(outbox := s.outbox[1..], sent := s.sent + [s.outbox[0]],
            shown := s.shown + [Reduced(s.Client(), s.outbox[0])]);
  }

  /** Until it has stopped, the replay has a step to take, whatever the producers do. */
  lemma NeverStuck(cfg: Config, run: seq<System>, events: seq<Event>, k: nat) returns (e: Event, t: System)
    requires IsRun(cfg, run, events) && k < |run| && run[k].phase != Stopped
    ensures run[k].Complete() && Step(cfg, run[k], e, t) && !e.Emit? && !e.Finish?
  {
    var s := run[k];
    RunInv(cfg, run, events, k);
    PhasesOk(cfg, run, events, k);
    if s.phase.Turn? {
      e, t := TurnPossible(cfg, s);
    } else if s.outbox != [] {
      e := Write;
      t := WritePossible(cfg, s);
    } else if s.phase == Idle {
      e, t := ServerTick, s.(replay := s.replay.(elapsed := s.replay.elapsed + cfg.step), phase := Turn(0));
    } else {
      e, t := Check, s.(phase := if s.finished && StreamRuns.Drained(s) then Stopped else Idle);
    }
  }
}
