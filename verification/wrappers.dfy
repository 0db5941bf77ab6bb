/** Failure-compatible wrappers used by the request handlers. */
module Wrappers {

  /** An optional value: a request parameter that may be absent. */
  datatype Option<+T> = None | Some(value: T)

  /** The outcome of a request: a value, or the error it ended in. */
  datatype Result<+R, +E> = Success(value: R) | Failure(error: E) {

    predicate IsFailure() {
      Failure?
    }

    function PropagateFailure<U>(): Result<U, E>
      requires Failure?
    {
      Failure(error)
    }

    function Extract(): R
      requires Success?
    {
      value
    }
  }
}
