/** Option and Result, used for the error paths of the modelled code. */
module Wrappers {

  datatype Option<+T> = None | Some(value: T)

  /** An exception of the modelled code becomes a `Failure` carrying its message. */
  datatype Result<+R> = Success(value: R) | Failure(error: string) {
    predicate IsFailure() { Failure? }

    function PropagateFailure<U>(): Result<U>
      requires Failure?
    {
      Failure(error)
    }

    function Extract(): R
      requires Success?
    {
      value
    }
  }
}
