/** Failure-carrying values used across the model, and the Python exceptions
    that the modelled code can raise. */
module Wrappers {

  /** The exceptions the engine's code raises on the paths that are modelled. */
  datatype Fault =
    | IndexError          // random.choice on an empty list, [1] of a one-piece split, split()[-1] of a blank string
    | ValueError          // max() of an empty sequence
    | ZeroDivisionError   // a running average with no ideas counted yet

  datatype Option<+T> = None | Some(value: T)

  datatype Result<+R, +E> = Success(value: R) | Failure(error: E) {
    predicate IsFailure() { Failure? }

    function PropagateFailure<U>(): Result<U, E>
      requires Failure?
    {
      Failure(error)
    }

    function Extract(): R
      requires Success?
    {
      value
    }
  }

  datatype Outcome<+E> = Pass | Fail(error: E)
}
