/** Option and Result, and the three kinds of Python exception the parsers can raise. */
module Wrappers {

  datatype Option<+T> = None | Some(value: T)
  {
    function GetOr(default: T): T {
      if Some? then value else default
    }
  }

  /** StructureError, UnicodeError and KeyError.  The parsers recover from the first two only. */
  datatype Fault = Structure | Unicode | MissingKey

  datatype Result<+T> = Ok(value: T) | Err(fault: Fault)
  {
    predicate IsFailure() {
      Err?
    }

    function PropagateFailure<U>(): Result<U>
      requires Err?
    {
      Err(fault)
    }

    function Extract(): T
      requires Ok?
    {
      value
    }
  }

  /** What is assumed of SHA-256 where it matters that digests do not collide. */
  ghost predicate Injective<T(!new), U(!new)>(f: T -> U) {
    forall x, y :: f(x) == f(y) ==> x == y
  }
}
