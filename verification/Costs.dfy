/** Non-negative path costs with an explicit +Inf, in exact arithmetic. */
module Costs {

  datatype Extended = Fin(value: real) | Inf

  /** A traversal weight or a summed cost: a non-negative real or +Inf. */
  type Cost = c: Extended | c.Fin? ==> c.value >= 0.0 witness Inf

  type NonNegative = r: real | r >= 0.0

  const ZERO: Cost := Fin(0.0)

  function Plus(a: Cost, b: Cost): Cost {
    if a.Inf? || b.Inf? then Inf else Fin(a.value + b.value)
  }

  predicate Less(a: Cost, b: Cost) {
    a.Fin? && (b.Inf? || a.value < b.value)
  }

  predicate Leq(a: Cost, b: Cost) {
    !Less(b, a)
  }

  function Abs(x: real): NonNegative {
    if x < 0.0 then -x else x
  }
}

/** Stock result types. */
module Results {
  datatype Option<+T> = None | Some(value: T)
  datatype Result<+T, +E> = Ok(value: T) | Err(error: E)
}

/** Choosing from a set. */
module Sets {
  method Pick<T(==)>(s: set<T>) returns (e: T)
    requires s != {}
    ensures e in s
  {
    e :| e in s;
  }
}
