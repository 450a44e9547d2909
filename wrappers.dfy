/** Option and Result: how the model writes JavaScript's `null`/`undefined`
    values and thrown errors. */
module Wrappers {

  datatype Option<+T> = None | Some(value: T) {
    /** JavaScript's `x || d` when only absence is falsy. */
    function GetOr(default: T): T {
      match this
      case Some(v) => v
      case None => default
    }
  }

  /** A value, or the error the source throws instead of returning. */
  datatype Result<+T, +E> = Success(value: T) | Failure(error: E) {
    predicate IsFailure() {
      Failure?
    }

    function PropagateFailure<U>(): Result<U, E>
      requires Failure?
    {
      Failure(error)
    }

    function Extract(): T
      requires Success?
    {
      value
    }
  }
}
