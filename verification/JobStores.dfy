/** The bounded registry of benchmark jobs: one live job per parameter tuple. */
module JobStores {
  import opened Results
  import opened CacheKeys

  datatype Status = Running | Done | Failed

  datatype Job = Job(id: string, params: Params, status: Status, report: Option<string>, err: string)

  function NewJob(id: string, params: Params): Job {
    Job(id, WithDefaults(params), Running, None, "")
  }

  /** Jobs by id, the live job of each key, and the ids in order of creation. */
  datatype Registry = Registry(jobs: map<string, Job>, keys: map<string, string>, order: seq<string>)

  const EMPTY := Registry(map[], map[], [])

  // ---- what each operation makes of the registry

  function Without(order: seq<string>, i: nat): seq<string>
    requires i < |order|
  {
    order[..i] + order[i + 1..]
  }

  predicate IsRunning(s: Registry, id: string) {
    id in s.jobs && s.jobs[id].status == Running
  }

  /** The first position from i on whose job is not running, or the end. */
  function FirstIdle(s: Registry, i: nat): (n: nat)
    requires i <= |s.order|
    ensures i <= n <= |s.order|
    decreases |s.order| - i
  {
    if i < |s.order| && IsRunning(s, s.order[i]) then FirstIdle(s, i + 1) else i
  }

  /** The first position from i on that holds this id, or the end. */
  function PositionOf(order: seq<string>, id: string, i: nat): (n: nat)
    requires i <= |order|
    ensures i <= n <= |order|
    decreases |order| - i
  {
    if i < |order| && order[i] != id then PositionOf(order, id, i + 1) else i
  }

  /** A job gone, and its key with it where that still points at it. */
  function Dropped(keying: Keying, s: Registry, id: string): Registry {
    if id !in s.jobs then s
    else
      var key := keying.key(s.jobs[id].params);
      Registry(s.jobs - {id}, if key in s.keys && s.keys[key] == id then s.keys - {key} else s.keys, s.order)
  }

  function Evicted(keying: Keying, s: Registry): Registry {
    var i := FirstIdle(s, 0);
    if i == |s.order| then s else Dropped(keying, s.(order := Without(s.order, i)), s.order[i])
  }

  function WithRoom(keying: Keying, maxJobs: int, s: Registry): Registry {
    if maxJobs > 0 && |s.jobs| >= maxJobs then Evicted(keying, s) else s
  }

  function Registered(keying: Keying, s: Registry, params: Params, id: string): Registry {
    Registry(s.jobs[id := NewJob(id, params)], s.keys[keying.key(params) := id], s.order + [id])
  }

  function Created(keying: Keying, maxJobs: int, s: Registry, params: Params, id: string): Registry {
    if keying.key(params) in s.keys then s
    else Registered(keying, WithRoom(keying, maxJobs, s), params, id)
  }

  function Removed(keying: Keying, s: Registry, id: string): Registry {
    var i := PositionOf(s.order, id, 0);
    Dropped(keying, if i == |s.order| then s else s.(order := Without(s.order, i)), id)
  }

  function Completed(keying: Keying, s: Registry, id: string, report: Option<string>, errMsg: string): Registry {
    if id !in s.jobs then s
    else if errMsg == "" then s.(jobs := s.jobs[id := s.jobs[id].(status := Done, report := report)])
    else
      var key := keying.key(s.jobs[id].params);
      Registry(s.jobs[id := s.jobs[id].(status := Failed, err := errMsg)],
               if key in s.keys && s.keys[key] == id then s.keys - {key} else s.keys, s.order)
  }

  class JobStore {
    const keying: Keying
    const maxJobs: int
    var byId: map<string, Job>
    var byKey: map<string, string>
    var order: seq<string>

    constructor (printer: Printer, maxJobs: int)
      ensures View() == EMPTY && keying == Printed(printer) && this.maxJobs == maxJobs
    {
      this.keying, this.maxJobs := Printed(printer), maxJobs;
      byId, byKey, order := map[], map[], [];
    }

    function View(): Registry
      reads this
    {
      Registry(byId, byKey, order)
    }

    /** The one live job of a tuple: the existing one, or a new running one. */
    method GetOrCreate(params: Params, id: string)
      returns (gotId: string, status: Status, gotParams: Params, created: bool)
      requires Coherent(keying, View())
      modifies this
      ensures View() == Created(keying, maxJobs, old(View()), params, id)
      ensures created <==> keying.key(params) !in old(byKey)
      ensures gotId in byId && byId[gotId].status == status && byId[gotId].params == gotParams
      ensures if created then gotId == id else gotId == old(byKey)[keying.key(params)]
      ensures created ==> byId[id] == Job(id, WithDefaults(params), Running, None, "")
    {
      var key := keying.key(params);
      if key in byKey {
        var job := byId[byKey[key]];
        return job.id, job.status, job.params, false;
      }
      if maxJobs > 0 && |byId| >= maxJobs {
        EvictOldestDone();
      }
      byId := byId[id := NewJob(id, params)];
      byKey := byKey[key := id];
      order := order + [id];
      return id, Running, WithDefaults(params), true;
    }

    method EvictOldestDone()
      requires Listed(View())
      modifies this
      ensures View() == Evicted(keying, old(View()))
    {
      for i := 0 to |order|
        invariant View() == old(View()) && FirstIdle(View(), i) == FirstIdle(View(), 0)
      {
        var id := order[i];
        if id in byId && byId[id].status == Running {
          continue;
        }
        order := order[..i] + order[i + 1..];
        Delete(id);
        return;
      }
    }

    /** Drops a job and, where it still points at it, its key; the caller sees to the order. */
    method Delete(id: string)
      modifies `byId, `byKey
      ensures View() == Dropped(keying, old(View()), id)
    {
      if id in byId {
        var key := keying.key(byId[id].params);
        byId := byId - {id};
        if key in byKey && byKey[key] == id {
          byKey := byKey - {key};
        }
      }
    }

    /** Rolls a created job back. */
    method Remove(id: string)
      modifies this
      ensures View() == Removed(keying, old(View()), id)
    {
      var at := |order|;
      for i := 0 to |order|
        invariant View() == old(View()) && at == |order| && PositionOf(order, id, i) == PositionOf(order, id, 0)
      {
        if order[i] == id {
          at := i;
          break;
        }
      }
      if at < |order| {
        order := order[..at] + order[at + 1..];
      }
      Delete(id);
    }

    /** Records how a sweep ended. */
    method Complete(id: string, report: Option<string>, errMsg: string)
      modifies this
      ensures View() == Completed(keying, old(View()), id, report, errMsg)
    {
      if id !in byId {
        return;
      }
      var job := byId[id];
      if errMsg != "" {
        byId := byId[id := job.(status := Failed, err := errMsg)];
        var key := keying.key(job.params);
        if key in byKey && byKey[key] == id {
          byKey := byKey - {key};
        }
        return;
      }
      byId := byId[id := job.(status := Done, report := report)];
    }

    method Snapshot(id: string) returns (job: Option<Job>)
      ensures job == if id in byId then Some(byId[id]) else None
    {
      return if id in byId then Some(byId[id]) else None;
    }
  }

  // ---- what the registry keeps

  ghost predicate NoDuplicates(order: seq<string>) {
    forall i, j :: 0 <= i < j < |order| ==> order[i] != order[j]
  }

  /** `order` lists the jobs, each once. */
  ghost predicate Listed(s: Registry) {
    NoDuplicates(s.order) && forall id :: id in s.order <==> id in s.jobs
  }

  ghost predicate JobOk(keying: Keying, id: string, job: Job) {
    job.id == id && keying.has(job.params) && WithDefaults(job.params) == job.params
  }

  /** A key maps to a job exactly when that job has this key and has not failed. */
  ghost predicate Keyed(keying: Keying, s: Registry) {
    && (forall id :: id in s.jobs ==> JobOk(keying, id, s.jobs[id]))
    && (forall key :: key in s.keys ==>
          && s.keys[key] in s.jobs && s.jobs[s.keys[key]].status != Failed
          && keying.key(s.jobs[s.keys[key]].params) == key)
    && forall id :: id in s.jobs && s.jobs[id].status != Failed ==>
         keying.key(s.jobs[id].params) in s.keys && s.keys[keying.key(s.jobs[id].params)] == id
  }

  ghost predicate Coherent(keying: Keying, s: Registry) {
    keying.Valid() && Listed(s) && Keyed(keying, s)
  }

  /** A job of this tuple that has not failed. */
  ghost predicate Live(s: Registry, params: Params, id: string) {
    id in s.jobs && s.jobs[id].params == WithDefaults(params) && s.jobs[id].status != Failed
  }

  /** A key is taken exactly by the one live job of its tuple. */
  lemma KeyLeadsToLiveJob(keying: Keying, s: Registry, params: Params, id: string)
    requires Coherent(keying, s) && keying.has(params)
    ensures Live(s, params, id) <==> keying.key(params) in s.keys && s.keys[keying.key(params)] == id
  {
    if id in s.jobs {
      assert JobOk(keying, id, s.jobs[id]);
    }
  }

  /** At most one job of a tuple has not failed. */
  lemma OneLiveJob(keying: Keying, s: Registry, params: Params, a: string, b: string)
    requires Coherent(keying, s) && keying.has(params) && Live(s, params, a) && Live(s, params, b)
    ensures a == b
  {
    KeyLeadsToLiveJob(keying, s, params, a);
    KeyLeadsToLiveJob(keying, s, params, b);
  }

  lemma WithoutOne(order: seq<string>, i: nat)
    requires i < |order| && NoDuplicates(order)
    ensures NoDuplicates(Without(order, i))
    ensures forall id :: id in Without(order, i) <==> id in order && id != order[i]
  {
    var rest := Without(order, i);
    assert forall k :: 0 <= k < |rest| ==> rest[k] == if k < i then order[k] else order[k + 1];
    forall id | id in order && id != order[i]
      ensures id in rest
    {
      var k :| 0 <= k < |order| && order[k] == id;
      assert rest[if k < i then k else k - 1] == id;
    }
  }

  lemma DropKeepsKeyed(keying: Keying, s: Registry, order: seq<string>, id: string)
    requires Keyed(keying, s)
    ensures Keyed(keying, Dropped(keying, s.(order := order), id))
  {
  }

  lemma OneFewer(jobs: map<string, Job>, id: string)
    requires id in jobs
    ensures |jobs - {id}| == |jobs| - 1
  {
    assert jobs.Keys == (jobs - {id}).Keys + {id};
  }

  /** Taking a job off the list and out of the maps leaves the registry coherent. */
  lemma DropKeepsCoherent(keying: Keying, s: Registry, i: nat)
    requires Coherent(keying, s) && i < |s.order|
    ensures var t := Dropped(keying, s.(order := Without(s.order, i)), s.order[i]);
      && Coherent(keying, t) && t.jobs == s.jobs - {s.order[i]} && t.keys.Keys <= s.keys.Keys
      && |t.jobs| == |s.jobs| - 1
  {
    WithoutOne(s.order, i);
    assert s.order[i] in s.order;
    OneFewer(s.jobs, s.order[i]);
    DropKeepsKeyed(keying, s, Without(s.order, i), s.order[i]);
  }

  lemma {:induction false} FirstIdleIs(s: Registry, i: nat)
    requires i <= |s.order|
    ensures var n := FirstIdle(s, i);
      (forall j :: i <= j < n ==> IsRunning(s, s.order[j])) && (n < |s.order| ==> !IsRunning(s, s.order[n]))
    decreases |s.order| - i
  {
    if i < |s.order| && IsRunning(s, s.order[i]) {
      FirstIdleIs(s, i + 1);
    }
  }

  /** Position i of the listing holds the oldest job that is not running. */
  ghost predicate OldestIdle(s: Registry, i: int) {
    0 <= i < |s.order| && !IsRunning(s, s.order[i]) && forall j :: 0 <= j < i ==> IsRunning(s, s.order[j])
  }

  /** Eviction drops exactly the oldest job that is not running, and nothing when all are. */
  lemma EvictsOldestIdle(keying: Keying, s: Registry) returns (i: int)
    requires Coherent(keying, s)
    ensures AllRunning(s) ==> Evicted(keying, s) == s
    ensures !AllRunning(s) ==>
      var t := Evicted(keying, s);
      OldestIdle(s, i) && t.jobs == s.jobs - {s.order[i]} && t.order == Without(s.order, i)
  {
    i := FirstIdle(s, 0);
    FirstIdleIs(s, 0);
    if i < |s.order| {
      DropKeepsCoherent(keying, s, i);
      assert s.order[i] in s.order;
    } else {
      assert forall id :: id in s.order ==> IsRunning(s, id);
    }
  }

  ghost predicate AllRunning(s: Registry) {
    forall id :: id in s.jobs ==> IsRunning(s, id)
  }

  lemma SomeIdleListed(s: Registry)
    requires Listed(s)
    ensures FirstIdle(s, 0) == |s.order| <==> AllRunning(s)
  {
    var i := FirstIdle(s, 0);
    FirstIdleIs(s, 0);
    if i < |s.order| {
      assert s.order[i] in s.order;
      return;
    }
    assert forall id :: id in s.order ==> IsRunning(s, id);
  }

  lemma EvictedKeepsRunning(keying: Keying, s: Registry)
    requires Coherent(keying, s)
    ensures var t := Evicted(keying, s);
      && Coherent(keying, t) && t.keys.Keys <= s.keys.Keys
      && (forall id :: id in t.jobs ==> id in s.jobs && t.jobs[id] == s.jobs[id])
      && (forall id :: IsRunning(s, id) ==> id in t.jobs && t.jobs[id] == s.jobs[id])
      && |t.jobs| == if AllRunning(s) then |s.jobs| else |s.jobs| - 1
  {
    var i := FirstIdle(s, 0);
    FirstIdleIs(s, 0);
    SomeIdleListed(s);
    if i < |s.order| {
      DropKeepsCoherent(keying, s, i);
    }
  }

  /** Room is made by dropping at most the oldest job that is not running. */
  lemma RoomKeepsRunning(keying: Keying, maxJobs: int, s: Registry)
    requires Coherent(keying, s)
    ensures var t := WithRoom(keying, maxJobs, s);
      && Coherent(keying, t) && t.keys.Keys <= s.keys.Keys
      && (forall id :: id in t.jobs ==> id in s.jobs && t.jobs[id] == s.jobs[id])
      && (forall id :: IsRunning(s, id) ==> id in t.jobs && t.jobs[id] == s.jobs[id])
    ensures var t := WithRoom(keying, maxJobs, s);
      maxJobs > 0 && |s.jobs| == maxJobs && (exists id :: id in s.jobs && !IsRunning(s, id)) ==> |t.jobs| == maxJobs - 1
  {
    if maxJobs > 0 && |s.jobs| >= maxJobs {
      EvictedKeepsRunning(keying, s);
    }
  }

  lemma RegisteredKeyed(keying: Keying, s: Registry, params: Params, id: string)
    requires Keyed(keying, s) && JobOk(keying, id, NewJob(id, params)) && id !in s.jobs
    requires keying.key(params) !in s.keys && keying.key(WithDefaults(params)) == keying.key(params)
    ensures Keyed(keying, Registered(keying, s, params, id))
  {
  }

  lemma RegisteredCoherent(keying: Keying, s: Registry, params: Params, id: string)
    requires Coherent(keying, s) && keying.has(params) && id !in s.jobs && keying.key(params) !in s.keys
    ensures Coherent(keying, Registered(keying, s, params, id))
  {
    DefaultsIdempotent(params);
    RegisteredKeyed(keying, s, params, id);
    assert id !in s.order;
  }

  /** Creating keeps the registry coherent, and afterwards the tuple has its one live job. */
  lemma CreatedCoherent(keying: Keying, maxJobs: int, s: Registry, params: Params, id: string)
    requires Coherent(keying, s) && keying.has(params) && id !in s.jobs
    ensures var t := Created(keying, maxJobs, s, params, id);
      Coherent(keying, t) && keying.key(params) in t.keys && Live(t, params, t.keys[keying.key(params)])
  {
    if keying.key(params) !in s.keys {
      RoomKeepsRunning(keying, maxJobs, s);
      RegisteredCoherent(keying, WithRoom(keying, maxJobs, s), params, id);
    }
    var t := Created(keying, maxJobs, s, params, id);
    KeyLeadsToLiveJob(keying, t, params, t.keys[keying.key(params)]);
  }

  /** Within capacity, creating goes beyond it exactly when every job it finds is running and there are as many as fit. */
  lemma CreatedFits(keying: Keying, maxJobs: int, s: Registry, params: Params, id: string)
    requires Coherent(keying, s) && keying.has(params) && id !in s.jobs && 0 < maxJobs && |s.jobs| <= maxJobs
    ensures |Created(keying, maxJobs, s, params, id).jobs| <= maxJobs <==>
      keying.key(params) in s.keys || |s.jobs| < maxJobs || exists j :: j in s.jobs && !IsRunning(s, j)
  {
    RoomKeepsRunning(keying, maxJobs, s);
    FirstIdleIs(s, 0);
    if FirstIdle(s, 0) < |s.order| {
      assert s.order[FirstIdle(s, 0)] in s.order;
    }
  }

  lemma {:induction false} PositionIs(order: seq<string>, id: string, i: nat)
    requires i <= |order|
    ensures var n := PositionOf(order, id, i);
      id !in order[i..n] && (n < |order| ==> order[n] == id)
    decreases |order| - i
  {
    if i < |order| && order[i] != id {
      PositionIs(order, id, i + 1);
      var n := PositionOf(order, id, i + 1);
      assert order[i..n] == [order[i]] + order[i + 1..n];
    }
  }

  lemma RemovedCoherent(keying: Keying, s: Registry, id: string)
    requires Coherent(keying, s)
    ensures Coherent(keying, Removed(keying, s, id)) && Removed(keying, s, id).jobs == s.jobs - {id}
  {
    var i := PositionOf(s.order, id, 0);
    PositionIs(s.order, id, 0);
    if i < |s.order| {
      DropKeepsCoherent(keying, s, i);
    } else {
      assert id !in s.order by {
        assert s.order[0..i] == s.order;
      }
      NothingToDrop(s.jobs, id);
    }
  }

  lemma NothingToDrop(jobs: map<string, Job>, id: string)
    requires id !in jobs
    ensures jobs - {id} == jobs
  {
  }

  lemma SuccessKeyedIff(keying: Keying, s: Registry, id: string, report: Option<string>)
    requires Keyed(keying, s) && id in s.jobs
    ensures Keyed(keying, Completed(keying, s, id, report, "")) <==> s.jobs[id].status != Failed
  {
    var t, key := Completed(keying, s, id, report, ""), keying.key(s.jobs[id].params);
    assert JobOk(keying, id, s.jobs[id]);
    if s.jobs[id].status == Failed {
      assert key in s.keys ==> s.keys[key] != id;
      assert t.jobs[id].status != Failed;
    }
  }

  lemma FailureKeyed(keying: Keying, s: Registry, id: string, report: Option<string>, errMsg: string)
    requires Keyed(keying, s) && id in s.jobs && errMsg != ""
    ensures Keyed(keying, Completed(keying, s, id, report, errMsg))
  {
    assert JobOk(keying, id, s.jobs[id]);
  }

  /** Recording an end keeps the registry coherent exactly when it is not a success of a job that has failed. */
  lemma CompletedCoherentIff(keying: Keying, s: Registry, id: string, report: Option<string>, errMsg: string)
    requires Coherent(keying, s)
    ensures Coherent(keying, Completed(keying, s, id, report, errMsg)) <==>
      !(id in s.jobs && s.jobs[id].status == Failed && errMsg == "")
  {
    if id in s.jobs {
      if errMsg == "" {
        SuccessKeyedIff(keying, s, id, report);
      } else {
        FailureKeyed(keying, s, id, report, errMsg);
      }
      CompletedRecords(keying, s, id, report, errMsg);
    }
  }

  /** An end is recorded on its job alone: a success with the report, a failure with its message. */
  lemma CompletedRecords(keying: Keying, s: Registry, id: string, report: Option<string>, errMsg: string)
    ensures var t := Completed(keying, s, id, report, errMsg);
      && t.order == s.order && t.jobs.Keys == s.jobs.Keys
      && (forall j :: j in s.jobs && j != id ==> t.jobs[j] == s.jobs[j])
      && (id in s.jobs ==>
            var job := s.jobs[id];
            t.jobs[id] == if errMsg == "" then Job(job.id, job.params, Done, report, job.err)
                          else Job(job.id, job.params, Failed, job.report, errMsg))
  {
  }

  /** A failure frees its tuple: no live job is left of it, and the next request starts a new one. */
  lemma FailureFreesTuple(keying: Keying, s: Registry, id: string, report: Option<string>, errMsg: string, params: Params)
    requires Coherent(keying, s) && keying.has(params) && Live(s, params, id) && errMsg != ""
    ensures keying.key(params) !in Completed(keying, s, id, report, errMsg).keys
  {
    KeyLeadsToLiveJob(keying, s, params, id);
    DefaultsIdempotent(params);
  }

  // ---- every sequence of calls

  datatype Call = Create(params: Params, id: string) | Remove(id: string)
    | Complete(id: string, report: Option<string>, errMsg: string)

  function After(keying: Keying, maxJobs: int, s: Registry, call: Call): Registry {
    match call
    case Create(params, id) => Created(keying, maxJobs, s, params, id)
    case Remove(id) => Removed(keying, s, id)
    case Complete(id, report, errMsg) => Completed(keying, s, id, report, errMsg)
  }

  /** Ids are fresh, and a success is recorded only for a running job. */
  ghost predicate Allowed(keying: Keying, s: Registry, call: Call) {
    match call
    case Create(params, id) => keying.has(params) && id !in s.jobs
    case Remove(_) => true
    case Complete(id, _, errMsg) => errMsg == "" && id in s.jobs ==> IsRunning(s, id)
  }

  /** states[k] is the registry before call k. */
  ghost predicate IsRun(keying: Keying, maxJobs: int, calls: seq<Call>, states: seq<Registry>) {
    && |states| == |calls| + 1 && states[0] == EMPTY
    && forall k :: 0 <= k < |calls| ==> Linked(keying, maxJobs, calls, states, k)
  }

  ghost predicate Linked(keying: Keying, maxJobs: int, calls: seq<Call>, states: seq<Registry>, k: nat)
    requires k < |calls| && |states| == |calls| + 1
  {
    Allowed(keying, states[k], calls[k]) && states[k + 1] == After(keying, maxJobs, states[k], calls[k])
  }

  lemma AfterCoherent(keying: Keying, maxJobs: int, s: Registry, call: Call)
    requires Coherent(keying, s) && Allowed(keying, s, call)
    ensures Coherent(keying, After(keying, maxJobs, s, call))
  {
    match call
    case Create(params, id) => CreatedCoherent(keying, maxJobs, s, params, id);
    case Remove(id) => RemovedCoherent(keying, s, id);
    case Complete(id, report, errMsg) => CompletedCoherentIff(keying, s, id, report, errMsg);
  }

  /** Over every sequence of calls the listing, the jobs and the keys agree. */
  lemma {:induction false} RunCoherent(keying: Keying, maxJobs: int, calls: seq<Call>, states: seq<Registry>, k: nat)
    requires keying.Valid() && IsRun(keying, maxJobs, calls, states) && k < |states|
    ensures Coherent(keying, states[k])
  {
    if k > 0 {
      RunCoherent(keying, maxJobs, calls, states, k - 1);
      assert Linked(keying, maxJobs, calls, states, k - 1);
      AfterCoherent(keying, maxJobs, states[k - 1], calls[k - 1]);
    }
  }

  /** A running job stays what it is until a call names it: no eviction drops it. */
  lemma RunningSurvives(keying: Keying, maxJobs: int, calls: seq<Call>, states: seq<Registry>, k: nat, id: string)
    requires keying.Valid() && IsRun(keying, maxJobs, calls, states) && k < |calls|
    requires IsRunning(states[k], id) && calls[k].id != id
    ensures IsRunning(states[k + 1], id) && states[k + 1].jobs[id] == states[k].jobs[id]
  {
    RunCoherent(keying, maxJobs, calls, states, k);
    assert Linked(keying, maxJobs, calls, states, k);
    AfterKeepsRunning(keying, maxJobs, states[k], calls[k], id);
  }

  lemma AfterKeepsRunning(keying: Keying, maxJobs: int, s: Registry, call: Call, id: string)
    requires Coherent(keying, s) && Allowed(keying, s, call) && IsRunning(s, id) && call.id != id
    ensures var t := After(keying, maxJobs, s, call);
      IsRunning(t, id) && t.jobs[id] == s.jobs[id]
  {
    match call
    case Create(_, _) => RoomKeepsRunning(keying, maxJobs, s);
    case Remove(other) => RemovedCoherent(keying, s, other);
    case Complete(other, report, errMsg) => CompletedRecords(keying, s, other, report, errMsg);
  }

  /**
   What a call leaves behind, in every such sequence: a job of the tuple that has not failed, registered under
   its key; no job of the removed id; the end of the completed one.
   */
  lemma CallTakesEffect(keying: Keying, maxJobs: int, calls: seq<Call>, states: seq<Registry>, k: nat)
    requires keying.Valid() && IsRun(keying, maxJobs, calls, states) && k < |calls|
    ensures var s, t := states[k], states[k + 1];
      match calls[k]
      case Create(params, id) =>
        keying.key(params) in t.keys && Live(t, params, t.keys[keying.key(params)])
      case Remove(id) => t.jobs == s.jobs - {id}
      case Complete(id, report, errMsg) =>
        id in s.jobs ==>
          && id in t.jobs && t.jobs[id].status == (if errMsg == "" then Done else Failed)
          && (if errMsg == "" then t.jobs[id].report == report else t.jobs[id].err == errMsg)
  {
    RunCoherent(keying, maxJobs, calls, states, k);
    assert Linked(keying, maxJobs, calls, states, k);
    match calls[k]
    case Create(params, id) => CreatedCoherent(keying, maxJobs, states[k], params, id);
    case Remove(id) => RemovedCoherent(keying, states[k], id);
    case Complete(id, report, errMsg) => CompletedRecords(keying, states[k], id, report, errMsg);
  }

  ghost function RunningJobs(s: Registry): set<string> {
    set id | id in s.jobs && s.jobs[id].status == Running
  }

  lemma SomeIdle(s: Registry, maxJobs: int)
    requires |s.jobs| >= maxJobs > |RunningJobs(s)|
    ensures exists id :: id in s.jobs && !IsRunning(s, id)
  {
    if s.jobs.Keys <= RunningJobs(s) {
      SameSize(s.jobs.Keys, RunningJobs(s));
    }
  }

  lemma SameSize(a: set<string>, b: set<string>)
    requires a <= b && b <= a
    ensures |a| == |b|
  {
    assert a == b;
  }

  /** While fewer jobs run than fit whenever one is created, the registry never outgrows its capacity. */
  lemma {:induction false} RunBounded(keying: Keying, maxJobs: int, calls: seq<Call>, states: seq<Registry>, k: nat)
    requires keying.Valid() && IsRun(keying, maxJobs, calls, states) && maxJobs > 0 && k < |states|
    requires forall j :: 0 <= j < k && calls[j].Create? ==> |RunningJobs(states[j])| < maxJobs
    ensures |states[k].jobs| <= maxJobs
  {
    if k > 0 {
      var s := states[k - 1];
      RunBounded(keying, maxJobs, calls, states, k - 1);
      RunCoherent(keying, maxJobs, calls, states, k - 1);
      assert Linked(keying, maxJobs, calls, states, k - 1);
      match calls[k - 1]
      case Create(params, id) =>
        if |s.jobs| == maxJobs {
          SomeIdle(s, maxJobs);
        }
        CreatedFits(keying, maxJobs, s, params, id);
      case Remove(id) =>
        RemovedCoherent(keying, s, id);
        FewerJobs(s.jobs, id);
      case Complete(id, _, _) =>
        CompletedRecords(keying, s, id, calls[k - 1].report, calls[k - 1].errMsg);
        assert |states[k].jobs.Keys| == |s.jobs.Keys|;
    }
  }

  lemma FewerJobs(jobs: map<string, Job>, id: string)
    ensures |jobs - {id}| <= |jobs|
  {
    if id in jobs {
      assert jobs.Keys == (jobs - {id}).Keys + {id};
    } else {
      assert jobs - {id} == jobs;
    }
  }

  /** In a store that prints its keys, over every sequence of calls, the text of a tuple leads to its live job alone. */
  lemma PrintedKeyLeadsToLiveJob(printer: Printer, maxJobs: int, calls: seq<Call>, states: seq<Registry>, k: nat,
                                 params: Params, id: string)
    requires printer.Valid() && IsRun(Printed(printer), maxJobs, calls, states) && k < |states|
    requires printer.Prints(params)
    ensures var s, key := states[k], printer.CacheKey(params);
      Live(s, params, id) <==> key in s.keys && s.keys[key] == id
  {
    PrintedIsValid(printer);
    RunCoherent(Printed(printer), maxJobs, calls, states, k);
    KeyLeadsToLiveJob(Printed(printer), states[k], params, id);
  }

  /** And the store stays within its capacity. */
  lemma PrintedRunBounded(printer: Printer, maxJobs: int, calls: seq<Call>, states: seq<Registry>, k: nat)
    requires printer.Valid() && IsRun(Printed(printer), maxJobs, calls, states) && maxJobs > 0 && k < |states|
    requires forall j :: 0 <= j < k && calls[j].Create? ==> |RunningJobs(states[j])| < maxJobs
    ensures |states[k].jobs| <= maxJobs
  {
    PrintedIsValid(printer);
    RunBounded(Printed(printer), maxJobs, calls, states, k);
  }
}
