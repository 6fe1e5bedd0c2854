/** Optional values and results, for the places where the program returns null or throws. */
module Wrappers {
  datatype Option<+T> = None | Some(value: T)

  datatype Result<+T, +E> = Success(value: T) | Failure(error: E)
  {
    predicate IsFailure() { Failure? }

    function PropagateFailure<U>(): Result<U, E>
      requires Failure?
    {
      Failure(error)
    }

    function Extract(): T
      requires Success?
    {
      value
    }
  }

  /** A value that must be there, or the error to throw. */
  function Need<T, E>(o: Option<T>, e: E): Result<T, E> {
    if o.Some? then Success(o.value) else Failure(e)
  }
}
