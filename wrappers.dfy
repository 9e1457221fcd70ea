// Option and Result values used across the model to represent Python's
// None and raised exceptions as ordinary results.
module Wrappers {

  datatype Option<T> = None | Some(value: T)
  {
    function GetOr(default: T): T
    {
      if Some? then value else default
    }
  }

  // A raised exception is modelled as Failure, carrying the message the
  // source attaches to it.
  datatype Result<T> = Success(value: T) | Failure(error: string)
  {
    predicate IsFailure()
    {
      Failure?
    }

    function PropagateFailure<U>(): Result<U>
      requires Failure?
    {
      Failure(error)
    }

    function Extract(): T
      requires Success?
    {
      value
    }
  }
}
