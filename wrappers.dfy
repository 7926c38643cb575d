/** Failure-compatible wrappers used to model Python's exceptions as values. */
module Wrappers {

  /** An optional value, standing for a Python `Optional[...]` or a `None` default. */
  datatype Option<+T> = None | Some(value: T)

  /** Either the value a Python call returns or the exception it raises. */
  datatype Result<+R, +E> = Success(value: R) | Failure(error: E) {

    predicate IsFailure() {
      Failure?
    }

    function PropagateFailure<U>(): (r: Result<U, E>)
      requires Failure?
      ensures r.Failure? && r.error == error
    {
      Failure(error)
    }

    function Extract(): (v: R)
      requires Success?
      ensures v == value
    {
      value
    }
  }
}
