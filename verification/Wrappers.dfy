/** Shared failure-carrying datatypes. */
module Wrappers {

  datatype Option<+T> = None | Some(value: T)

  datatype Result<+T, +E> = Success(value: T) | Failure(error: E) {
    predicate IsFailure() {
      Failure?
    }

    function PropagateFailure<U>(): Result<U, E>
      requires Failure?
    {
      Failure(error)
    }

    function Extract(): T
      requires Success?
    {
      value
    }
  }

  /** The outcome of one check. */
  datatype Outcome<+E> = Granted | Denied(error: E) {
    predicate IsFailure() {
      Denied?
    }

    function PropagateFailure<U>(): Result<U, E>
      requires Denied?
    {
      Failure(error)
    }
  }

  function Need<E>(condition: bool, error: E): Outcome<E> {
    if condition then Granted else Denied(error)
  }
}
