/** The mutable per-edge load store behind every congestion provider. */
module LoadStores {
  import opened Vectors
  import opened Pricing

  /** A snapshot extended with zeros to at least n slots. */
  function Grown(loads: Vec, n: int): (z: Vec)
    ensures |z| == if n > |loads| then n else |loads|
    ensures forall id: int :: LoadAt(z, id) == LoadAt(loads, id)
  {
    if n <= |loads| then loads else loads + Zeros(n - |loads|)
  }

  /** A snapshot with one edge's load replaced; a negative id is ignored, a new id grows the snapshot. */
  function With(loads: Vec, id: int, load: real): (z: Vec)
    ensures forall e: int :: LoadAt(z, e) == if e == id && id >= 0 then load else LoadAt(loads, e)
    ensures |z| >= |loads|
  {
    if id < 0 then loads else Grown(loads, id + 1)[id := load]
  }

  class LoadStore {
    var loads: Vec

    constructor (edgeCount: int)
      ensures loads == Zeros(if edgeCount < 0 then 0 else edgeCount)
    {
      loads := Zeros(if edgeCount < 0 then 0 else edgeCount);
    }

    method Grow(length: int)
      modifies this
      ensures loads == Grown(old(loads), length)
    {
      if length <= |loads| {
        return;
      }
      loads := loads + Zeros(length - |loads|);
    }

    method Set(id: int, load: real)
      modifies this
      ensures loads == With(old(loads), id, load)
    {
      if id < 0 {
        return;
      }
      Grow(id + 1);
      loads := loads[id := load];
    }

    function Load(id: int): real
      reads this
    {
      LoadAt(loads, id)
    }

    /** A copy that later writes to the store do not change. */
    function Snapshot(): Vec
      reads this
    {
      loads
    }
  }
}
