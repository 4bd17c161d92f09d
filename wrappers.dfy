/** Optional values and results, the shapes the parser's lookups and failures take. */
module Wrappers {

  /** A value that may be absent (JavaScript `undefined`, a regex with no match). */
  datatype Option<+T> = None | Some(value: T)
  {
    predicate IsFailure() { None? }

    function PropagateFailure<U>(): Option<U>
      requires None?
    {
      None
    }

    function Extract(): T
      requires Some?
    {
      value
    }
  }

  /** A value, or the error that a JavaScript `throw` would have carried out of the call. */
  datatype Result<+T, +E> = Ok(value: T) | Err(error: E)
  {
    predicate IsFailure() { Err? }

    function PropagateFailure<U>(): Result<U, E>
      requires Err?
    {
      Err(error)
    }

    function Extract(): T
      requires Ok?
    {
      value
    }
  }
}
