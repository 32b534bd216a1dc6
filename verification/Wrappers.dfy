/** Values that may be missing, and calls that may fail. */
module Wrappers {

  datatype Option<+T> = None | Some(value: T) {
    /** The value held here, or else the one given. */
    function Or(other: T): T {
      if Some? then value else other
    }
  }

  datatype Result<+T, +E> = Success(value: T) | Failure(error: E) {
    predicate IsFailure() {
      Failure?
    }

    function PropagateFailure<U>(): Result<U, E>
      requires Failure?
    {
      Failure(error)
    }

    function Extract(): T
      requires Success?
    {
      value
    }
  }

  /** A check that carries no value: the `nil`-or-error returns of the original. */
  datatype Verdict<+E> = Pass | Fail(error: E) {
    predicate IsFailure() {
      Fail?
    }

    function PropagateFailure<U>(): Result<U, E>
      requires Fail?
    {
      Result.Failure(error)
    }
  }

  function Need<E>(condition: bool, error: E): Verdict<E> {
    if condition then Pass else Fail(error)
  }
}
