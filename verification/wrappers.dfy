/** Option and Result, the two shapes every fallible operation of the model returns. */
module Wrappers {

  /** `None` stands for JavaScript's `undefined`/`null`, `Some(v)` for a present value. */
  datatype Option<+T> = None | Some(value: T)

  /** The outcome of an async service call: a value, or the exception it throws. */
  datatype Result<+T, +E> = Success(value: T) | Failure(error: E) {
    predicate IsFailure() { Failure? }

    function PropagateFailure<U>(): Result<U, E>
      requires Failure?
    {
      Failure(error)
    }

    function Extract(): T
      requires Success?
    {
      value
    }
  }
}
