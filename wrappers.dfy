/** Option and Result, the two failure-carrying shapes the service code uses. */
module Wrappers {

  datatype Option<+T> = None | Some(value: T)

  /** `Success` or `Failure`, usable with `:-` like Rust's `?`. */
  datatype Result<+T, +E> = Success(value: T) | Failure(error: E) {

    predicate IsFailure() {
      Failure?
    }

    function PropagateFailure<U>(): Result<U, E>
      requires Failure?
    {
      Failure(error)
    }

    function Extract(): T
      requires Success?
    {
      value
    }
  }
}
