/** The tick store the producers fill, and its first-tick waiter. */
module LiveBuffers {
  import opened Results
  import opened Frames
  import opened Stream

  type Ticks = map<Algo, seq<AlgoTick>>

  /** Every algorithm has produced a tick. */
  predicate HaveAll(ticks: Ticks) {
    forall i :: 0 <= i < |ROUTER_ORDER| ==> ROUTER_ORDER[i] in ticks && ticks[ROUTER_ORDER[i]] != []
  }

  function Appended(ticks: Ticks, t: AlgoTick): Ticks {
    ticks[t.algo := (if t.algo in ticks then ticks[t.algo] else []) + [t]]
  }

  lemma AppendKeepsAll(ticks: Ticks, t: AlgoTick)
    requires HaveAll(ticks)
    ensures HaveAll(Appended(ticks, t))
  {
  }

  // ---- the wakeup protocol, step by step

  datatype Waiter = Checking | Waiting | Returned | Cancelled

  /** `pending` producers have changed the store and not yet signalled. */
  datatype Hub = Hub(ticks: Ticks, finished: bool, notify: bool, pending: nat, waiter: Waiter) {
    predicate Ready() { finished || HaveAll(ticks) }
  }

  datatype Event = Append(t: AlgoTick) | Conclude | Signal | Check | Receive | Cancel

  predicate Enabled(h: Hub, e: Event) {
    match e
    case Append(_) => !h.finished
    case Conclude => !h.finished
    case Signal => h.pending > 0
    case Check => h.waiter == Checking
    case Receive => h.waiter == Waiting && h.notify
    case Cancel => h.waiter == Waiting
  }

  function Next(h: Hub, e: Event): Hub
    requires Enabled(h, e)
  {
    match e
    case Append(t) => h.(ticks := Appended(h.ticks, t), pending := h.pending + 1)
    case Conclude => h.(finished := true, pending := h.pending + 1)
    case Signal => h.(pending := h.pending - 1, notify := true)
    case Check => h.(waiter := if h.Ready() then Returned else Waiting)
    case Receive => h.(notify := false, waiter := Checking)
    case Cancel => h.(waiter := Cancelled)
  }

  function Initially(): Hub {
    Hub(map a: Algo | a in ROUTER_ORDER :: [], false, false, 0, Checking)
  }

  // ---- the store

  /**
   The shared store. Each of the first six methods is one section that holds the mutex, or one
   channel operation, and so one step of the protocol; `pending` and `waiter` say how far the
   producers and the waiter have come.
   */
  class Store {
    var ticks: Ticks
    var finished: bool
    var err: Option<string>
    /** The one-slot notify channel holds a wakeup. */
    var notify: bool
    ghost var pending: nat
    ghost var waiter: Waiter

    ghost function View(): Hub
      reads this
    {
      Hub(ticks, finished, notify, pending, waiter)
    }

    constructor ()
      ensures View() == Initially() && err == None
    {
      ticks := map a: Algo | a in ROUTER_ORDER :: [];
      finished, err, notify, pending, waiter := false, None, false, 0, Checking;
    }

    method AppendTick(t: AlgoTick)
      requires Enabled(View(), Append(t))
      modifies this
      ensures View() == Next(old(View()), Append(t)) && err == old(err)
    {
      ticks := Appended(ticks, t);
      pending := pending + 1;
    }

    method SetFinished(err: Option<string>)
      requires Enabled(View(), Conclude)
      modifies this
      ensures View() == Next(old(View()), Conclude) && this.err == err
    {
      finished, this.err := true, err;
      pending := pending + 1;
    }

    /** A full channel already carries the wakeup. */
    method Notify()
      requires Enabled(View(), Signal)
      modifies this
      ensures View() == Next(old(View()), Signal) && err == old(err)
    {
      if !notify {
        notify := true;
      }
      pending := pending - 1;
    }

    /** The waiter looks whether it can go on; if not, it goes on to wait. */
    method CheckReady() returns (ready: bool)
      requires Enabled(View(), Check)
      modifies this`waiter
      ensures View() == Next(old(View()), Check) && (ready <==> waiter == Returned)
    {
      ready := true;
      for i := 0 to |ROUTER_ORDER|
        invariant ready <==> forall j :: 0 <= j < i ==> ROUTER_ORDER[j] in ticks && ticks[ROUTER_ORDER[j]] != []
        invariant View() == old(View())
      {
        if ROUTER_ORDER[i] !in ticks || ticks[ROUTER_ORDER[i]] == [] {
          ready := false;
        }
      }
      ready := ready || finished;
      waiter := if ready then Returned else Waiting;
    }

    /** The waiter takes the wakeup out of the channel. */
    method TakeWakeup()
      requires Enabled(View(), Receive)
      modifies this
      ensures View() == Next(old(View()), Receive) && err == old(err)
    {
      notify, waiter := false, Checking;
    }

    method GiveUp()
      requires Enabled(View(), Cancel)
      modifies this`waiter
      ensures View() == Next(old(View()), Cancel)
    {
      waiter := Cancelled;
    }

    /** What a producer does with a tick when nothing comes in between. */
    method Emit(t: AlgoTick)
      requires !finished
      modifies this
      ensures View() == Next(Next(old(View()), Append(t)), Signal) && err == old(err)
    {
      AppendTick(t);
      Notify();
    }

    /** And what it does at its end. */
    method Finish(err: Option<string>)
      requires !finished
      modifies this
      ensures View() == Next(Next(old(View()), Conclude), Signal) && this.err == err
    {
      SetFinished(err);
      Notify();
    }

    /** The producer's error, once it has finished; read before the first frame. */
    method TerminalErr() returns (e: Option<string>)
      ensures e == if finished then err else None
    {
      if finished {
        return err;
      }
      return None;
    }
  }

  // ---- every interleaving

  /** The states of one interleaving. */
  ghost predicate IsRun(run: seq<Hub>, events: seq<Event>) {
    && |run| == |events| + 1 && run[0] == Initially()
    && forall k :: 0 <= k < |events| ==> Linked(run, events, k)
  }

  ghost predicate Linked(run: seq<Hub>, events: seq<Event>, k: nat)
    requires k < |events| && |run| == |events| + 1
  {
    Enabled(run[k], events[k]) && run[k + 1] == Next(run[k], events[k])
  }

  /** A waiter that blocks although it could go on has a wakeup in the channel or on its way. */
  predicate NoMissedWakeup(h: Hub) {
    && (h.waiter == Waiting && h.Ready() ==> h.notify || h.pending > 0)
    && (h.waiter == Returned ==> h.Ready())
  }

  lemma ReadyStays(h: Hub, e: Event)
    requires Enabled(h, e) && h.Ready()
    ensures Next(h, e).Ready()
  {
    if e.Append? && HaveAll(h.ticks) {
      AppendKeepsAll(h.ticks, e.t);
    }
  }

  lemma NextKeepsWakeup(h: Hub, e: Event)
    requires NoMissedWakeup(h) && Enabled(h, e)
    ensures NoMissedWakeup(Next(h, e))
  {
    if h.Ready() {
      ReadyStays(h, e);
    }
  }

  lemma {:induction false} WakeupNeverMissed(run: seq<Hub>, events: seq<Event>, k: nat)
    requires IsRun(run, events) && k < |run|
    ensures NoMissedWakeup(run[k])
  {
    if k > 0 {
      WakeupNeverMissed(run, events, k - 1);
      assert Linked(run, events, k - 1);
      NextKeepsWakeup(run[k - 1], events[k - 1]);
    }
  }

  /** Steps left until the waiter returns, unless producers add more. */
  function Outstanding(h: Hub): nat {
    h.pending + match h.waiter case Waiting => 2 case Checking => 1 case _ => 0
  }

  predicate IsWakeupStep(e: Event) { e.Signal? || e.Check? || e.Receive? }

  /**
   From any reachable state in which the first ticks are there or the producer is through, the
   waiter is never stuck: some wakeup step is possible, and every one brings its return closer.
   */
  lemma WaiterReturns(run: seq<Hub>, events: seq<Event>, k: nat) returns (e: Event)
    requires IsRun(run, events) && k < |run| && run[k].Ready()
    requires run[k].waiter == Waiting || run[k].waiter == Checking
    ensures IsWakeupStep(e) && Enabled(run[k], e)
    ensures forall d :: IsWakeupStep(d) && Enabled(run[k], d) ==>
      Next(run[k], d).Ready() && Outstanding(Next(run[k], d)) < Outstanding(run[k])
  {
    WakeupNeverMissed(run, events, k);
    e := if run[k].waiter == Checking then Check else if run[k].notify then Receive else Signal;
  }

  /** The waiter goes on only when every algorithm has a tick or no more will come. */
  lemma ReturnedIsReady(run: seq<Hub>, events: seq<Event>, k: nat)
    requires IsRun(run, events) && k < |run| && run[k].waiter == Returned
    ensures run[k].finished || HaveAll(run[k].ticks)
  {
    WakeupNeverMissed(run, events, k);
  }

  /** The ticks of an algorithm among the first k events, in the order they were appended. */
  function TicksAppended(events: seq<Event>, a: Algo, k: nat): seq<AlgoTick>
    requires k <= |events|
  {
    if k == 0 then []
    else
      var before, e := TicksAppended(events, a, k - 1), events[k - 1];
      if e.Append? && e.t.algo == a then before + [e.t] else before
  }

  /** Every buffer holds the ticks of its algorithm in the order the producers appended them; none is lost. */
  lemma {:induction false} BuffersInOrder(run: seq<Hub>, events: seq<Event>, k: nat, a: Algo)
    requires IsRun(run, events) && k < |run|
    ensures a in run[k].ticks && run[k].ticks[a] == TicksAppended(events, a, k)
    ensures run[k].finished <==> exists i :: 0 <= i < k && events[i] == Conclude
  {
    if k > 0 {
      BuffersInOrder(run, events, k - 1, a);
      assert Linked(run, events, k - 1);
      return;
    }
    var i := EveryAlgo(a);
  }
}
