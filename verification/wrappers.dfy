/** Failure-compatible wrappers used throughout the model: `Option` for a
    dictionary key that may be absent, `Result` for a computation that may
    raise. `Result` works with Dafny's `:-` operator. */
module Wrappers {

  datatype Option<+T> = None | Some(value: T)

  datatype Result<+R, +E> = Success(value: R) | Failure(error: E) {

    predicate IsFailure() {
      Failure?
    }

    function PropagateFailure<U>(): Result<U, E>
      requires Failure?
    {
      Failure(error)
    }

    function Extract(): R
      requires Success?
    {
      value
    }
  }
}
