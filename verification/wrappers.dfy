/**
 * Option and Result, the two shapes every fallible step of the model returns.
 * A Python `None` becomes `None`; a raised exception becomes `Failure(message)`.
 */
module Wrappers {

  datatype Option<+T> = None | Some(value: T) {

    /** Python's `x or default` when x is optional. */
    function GetOr(default: T): (r: T)
      ensures Some? ==> r == value
      ensures None? ==> r == default
    {
      match this
      case Some(v) => v
      case None => default
    }
  }

  datatype Result<+T, +E> = Success(value: T) | Failure(error: E) {

    function ToOption(): (r: Option<T>)
      ensures r.Some? <==> Success?
      ensures Success? ==> r.value == value
    {
      match this
      case Success(v) => Some(v)
      case Failure(_) => None
    }

    /** The three members `:-` uses to stop at the first failure. */
    predicate IsFailure() {
      Failure?
    }

    function PropagateFailure<U>(): Result<U, E>
      requires Failure?
    {
      Failure(error)
    }

    function Extract(): T
      requires Success?
    {
      value
    }
  }
}
