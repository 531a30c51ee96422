/** Failure-carrying values shared by every module of the model. */
module Wrappers {

  /** An optional value; Go's nil interface or nil function value is `None`. */
  datatype Option<+T> = None | Some(value: T)

  /** A value or an error, for Go functions returning `(T, error)`. */
  datatype Result<+T, +E> = Success(value: T) | Failure(error: E) {

    predicate IsFailure() {
      Failure?
    }

    function PropagateFailure<U>(): Result<U, E>
      requires Failure?
    {
      Failure(error)
    }

    function Extract(): T
      requires Success?
    {
      value
    }
  }
}
