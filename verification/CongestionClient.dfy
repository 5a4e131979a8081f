/** The client's reducer: one bucket map per algorithm, folded from stream frames. */
module CongestionClient {
  import opened Results
  import opened Frames

  datatype CongestionState = CongestionState(
    buckets: map<Algo, BucketMap>, tick: map<Algo, nat>, simTime: map<Algo, Option<real>>,
    metrics: map<Algo, Option<Metrics>>) {

    /** Every algorithm has a slot. */
    ghost predicate Complete() {
      forall a: Algo :: a in buckets && a in tick && a in simTime && a in metrics
    }
  }

  ghost predicate EmptySlot(s: CongestionState, a: Algo) {
    && a in s.buckets && s.buckets[a] == map[] && a in s.tick && s.tick[a] == 0
    && a in s.simTime && s.simTime[a] == None && a in s.metrics && s.metrics[a] == None
  }

  /** The first n algorithms have their empty slots. */
  ghost predicate EmptyBelow(s: CongestionState, n: nat)
    requires n <= |ROUTER_ORDER|
  {
    forall j :: 0 <= j < n ==> EmptySlot(s, ROUTER_ORDER[j])
  }

  function WithEmptySlot(s: CongestionState, a: Algo): CongestionState {
    CongestionState(s.buckets[a := map[]], s.tick[a := 0], s.simTime[a := None], s.metrics[a := None])
  }

  lemma OneMoreSlot(s: CongestionState, n: nat)
    requires n < |ROUTER_ORDER| && EmptyBelow(s, n)
    ensures EmptyBelow(WithEmptySlot(s, ROUTER_ORDER[n]), n + 1)
  {
    forall j | 0 <= j < n + 1
      ensures EmptySlot(WithEmptySlot(s, ROUTER_ORDER[n]), ROUTER_ORDER[j])
    {
      assert j < n ==> EmptySlot(s, ROUTER_ORDER[j]);
    }
  }

  method EmptyCongestionState() returns (state: CongestionState)
    ensures state == Empty() && state.Complete()
  {
    state := CongestionState(map[], map[], map[], map[]);
    for i := 0 to |ROUTER_ORDER|
      invariant EmptyBelow(state, i)
    {
      OneMoreSlot(state, i);
      state := WithEmptySlot(state, ROUTER_ORDER[i]);
    }
    AllSlotsEmpty(state);
  }

  lemma AllSlotsEmpty(state: CongestionState)
    requires EmptyBelow(state, |ROUTER_ORDER|)
    ensures state == Empty() && state.Complete()
  {
    EmptyComplete();
    forall a: Algo
      ensures a in state.buckets && state.buckets[a] == map[] && a in state.tick && state.tick[a] == 0
      ensures a in state.simTime && state.simTime[a] == None && a in state.metrics && state.metrics[a] == None
    {
      var i := EveryAlgo(a);
      assert EmptySlot(state, ROUTER_ORDER[i]);
    }
    ConstantMap(state.buckets, map[]);
    ConstantMap(state.tick, 0);
    ConstantMap(state.simTime, None);
    ConstantMap(state.metrics, None);
  }

  lemma ConstantMap<T>(m: map<Algo, T>, value: T)
    requires forall a: Algo :: a in m && m[a] == value
    ensures m == map a: Algo | a in ROUTER_ORDER :: value
  {
    EmptyComplete();
    assert forall a: Algo :: a in Empty().tick;
  }

  function Empty(): CongestionState {
    CongestionState(
      map a: Algo | a in ROUTER_ORDER :: map[], map a: Algo | a in ROUTER_ORDER :: 0,
      map a: Algo | a in ROUTER_ORDER :: None, map a: Algo | a in ROUTER_ORDER :: None)
  }

  /** A bucket map after writing the first n entries of a frame over it. */
  function Written(m: BucketMap, entries: seq<SegmentVC>, n: nat): BucketMap
    requires n <= |entries|
  {
    if n == 0 then m else Written(m, entries, n - 1)[entries[n - 1].segment := entries[n - 1].bucket]
  }

  method WriteEntries(m: BucketMap, entries: seq<SegmentVC>) returns (next: BucketMap)
    ensures next == Written(m, entries, |entries|)
  {
    next := m;
    for n := 0 to |entries|
      invariant next == Written(m, entries, n)
    {
      next := next[entries[n].segment := entries[n].bucket];
    }
  }

  function WriteAlgo(state: CongestionState, algo: Algo, next: BucketMap, tick: nat, simTime: real, metrics: Metrics)
    : CongestionState
  {
    CongestionState(state.buckets[algo := next], state.tick[algo := tick],
                    state.simTime[algo := Some(simTime)], state.metrics[algo := Some(metrics)])
  }

  /** One frame folded into the state: a snapshot replaces its algorithm's map, a delta is written over it. */
  function Reduced(state: CongestionState, frame: Frame): CongestionState
    requires state.Complete()
  {
    match frame
    case Snapshot(algo, tick, simTime, segments, metrics) =>
      WriteAlgo(state, algo, Written(map[], segments, |segments|), tick, simTime, metrics)
    case Delta(algo, tick, simTime, changed, metrics) =>
      WriteAlgo(state, algo, Written(state.buckets[algo], changed, |changed|), tick, simTime, metrics)
  }

  /** The two states hold the same for one algorithm. */
  ghost predicate SameSlot(c: CongestionState, d: CongestionState, a: Algo)
    requires c.Complete() && d.Complete()
  {
    c.buckets[a] == d.buckets[a] && c.tick[a] == d.tick[a] && c.simTime[a] == d.simTime[a] && c.metrics[a] == d.metrics[a]
  }

  method ReduceCongestion(state: CongestionState, frame: Frame) returns (next: CongestionState)
    requires state.Complete()
    ensures next == Reduced(state, frame) && next.Complete()
    ensures forall b: Algo :: b != frame.algo ==> SameSlot(state, next, b)
  {
    match frame {
      case Snapshot(algo, tick, simTime, segments, metrics) =>
        var m := WriteEntries(map[], segments);
        next := WriteAlgo(state, algo, m, tick, simTime, metrics);
      case Delta(algo, tick, simTime, changed, metrics) =>
        var m := WriteEntries(state.buckets[algo], changed);
        next := WriteAlgo(state, algo, m, tick, simTime, metrics);
    }
  }

  /** states[k] is what the client holds after the first k frames. */
  ghost predicate IsFold(frames: seq<Frame>, states: seq<CongestionState>) {
    && |states| == |frames| + 1 && states[0] == Empty()
    && forall k :: 0 <= k < |frames| ==> FoldsAt(frames, states, k)
  }

  ghost predicate FoldsAt(frames: seq<Frame>, states: seq<CongestionState>, k: nat)
    requires k < |frames| && |states| == |frames| + 1
  {
    states[k].Complete() && states[k + 1] == Reduced(states[k], frames[k])
  }

  /** What the client will hold once it has received these frames. */
  ghost function After(client: CongestionState, frames: seq<Frame>): (c: CongestionState)
    requires client.Complete()
    ensures c.Complete()
  {
    if frames == [] then client
    else Reduced(After(client, frames[..|frames| - 1]), frames[|frames| - 1])
  }

  lemma AfterSnoc(client: CongestionState, frames: seq<Frame>, frame: Frame)
    requires client.Complete()
    ensures After(client, frames + [frame]) == Reduced(After(client, frames), frame)
  {
    assert (frames + [frame])[..|frames|] == frames;
  }

  /** Delivering the first frame leaves the rest to come. */
  lemma {:induction false} AfterFirst(client: CongestionState, frames: seq<Frame>)
    requires client.Complete() && frames != []
    ensures Reduced(client, frames[0]).Complete()
    ensures After(Reduced(client, frames[0]), frames[1..]) == After(client, frames)
  {
    var n := |frames| - 1;
    if n == 0 {
      assert frames[..0] == [];
    } else {
      AfterFirst(client, frames[..n]);
      assert frames[1..][..n - 1] == frames[..n][1..];
    }
  }

  ghost predicate NoneFor(frames: seq<Frame>, a: Algo) {
    forall i :: 0 <= i < |frames| ==> frames[i].algo != a
  }

  lemma ReducedOthers(client: CongestionState, frame: Frame, a: Algo)
    requires client.Complete() && frame.algo != a
    ensures Reduced(client, frame).Complete() && SameSlot(client, Reduced(client, frame), a)
  {
  }

  lemma SameSlotTransitive(c: CongestionState, d: CongestionState, e: CongestionState, a: Algo)
    requires c.Complete() && d.Complete() && e.Complete() && SameSlot(c, d, a) && SameSlot(d, e, a)
    ensures SameSlot(c, e, a)
  {
  }

  /** Frames of other algorithms leave a slot alone. */
  lemma {:induction false} AfterOthers(client: CongestionState, frames: seq<Frame>, a: Algo)
    requires client.Complete() && NoneFor(frames, a)
    ensures SameSlot(client, After(client, frames), a)
  {
    if frames != [] {
      var before, last := After(client, frames[..|frames| - 1]), frames[|frames| - 1];
      AfterOthers(client, frames[..|frames| - 1], a);
      ReducedOthers(before, last, a);
      SameSlotTransitive(client, before, Reduced(before, last), a);
    }
  }

  lemma FoldSnoc(frames: seq<Frame>, states: seq<CongestionState>, frame: Frame, next: CongestionState)
    requires IsFold(frames, states) && states[|frames|].Complete() && next == Reduced(states[|frames|], frame)
    ensures IsFold(frames + [frame], states + [next])
  {
    forall k | 0 <= k < |frames| + 1
      ensures FoldsAt(frames + [frame], states + [next], k)
    {
      if k < |frames| {
        assert FoldsAt(frames, states, k);
      }
    }
  }

  lemma EmptyComplete()
    ensures Empty().Complete()
  {
    forall a: Algo
      ensures a in ROUTER_ORDER
    {
      var i := EveryAlgo(a);
    }
  }

  /** What writing the entries of a frame does to one id: the entry with that id wins, others leave it alone. */
  lemma {:induction false} WrittenAt(m: BucketMap, entries: seq<SegmentVC>, n: nat, id: string)
    requires n <= |entries| && InIdOrder(entries)
    ensures id in Written(m, entries, n) <==> id in m || exists i :: 0 <= i < n && entries[i].segment == id
    ensures forall i :: 0 <= i < n && entries[i].segment == id ==> Written(m, entries, n)[id] == entries[i].bucket
    ensures id in m && (forall i :: 0 <= i < n ==> entries[i].segment != id) ==> Written(m, entries, n)[id] == m[id]
  {
    if n > 0 {
      WrittenAt(m, entries, n - 1, id);
      LexTotal(entries[n - 1].segment, entries[n - 1].segment);
    }
  }

  /** The bucket a frame gives an id. */
  ghost predicate Gives(entries: seq<SegmentVC>, id: string, b: int) {
    exists i :: 0 <= i < |entries| && entries[i].segment == id && entries[i].bucket == b
  }

  ghost predicate Gone(entries: seq<SegmentVC>, id: string) {
    forall i :: 0 <= i < |entries| ==> entries[i].segment != id
  }

  /** A snapshot leaves its algorithm with what it lists and nothing else, whatever was shown before. */
  lemma SnapshotReplaces(state: CongestionState, f: Frame, id: string)
    requires state.Complete() && f.Snapshot? && InIdOrder(f.segments)
    ensures Reduced(state, f).Complete()
    ensures var m := Reduced(state, f).buckets[f.algo];
      (id in m <==> !Gone(f.segments, id)) && (id in m ==> Gives(f.segments, id, m[id]))
  {
    WrittenAt(map[], f.segments, |f.segments|, id);
  }

  /** A delta changes what it lists and leaves the rest as it was shown. */
  lemma DeltaOverwrites(state: CongestionState, f: Frame, id: string)
    requires state.Complete() && f.Delta? && InIdOrder(f.changed)
    ensures Reduced(state, f).Complete()
    ensures var before, m := state.buckets[f.algo], Reduced(state, f).buckets[f.algo];
      if Gone(f.changed, id) then (id in m <==> id in before) && (id in m ==> m[id] == before[id])
      else id in m && Gives(f.changed, id, m[id])
  {
    WrittenAt(state.buckets[f.algo], f.changed, |f.changed|, id);
  }

  /** Either kind of frame brings its tick, its time and its metrics. */
  lemma FrameIsRecorded(state: CongestionState, f: Frame)
    requires state.Complete()
    ensures var next := Reduced(state, f);
      && f.algo in next.tick && next.tick[f.algo] == f.tick
      && f.algo in next.simTime && next.simTime[f.algo] == Some(f.simTime)
      && f.algo in next.metrics && next.metrics[f.algo] == Some(f.metrics)
  {
  }
}
