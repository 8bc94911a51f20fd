/** Failure-carrying results shared by every part of the model.
    The source signals failures with exceptions: Python's ValueError, KeyError,
    TypeError and RuntimeError, and cyclus' ValueError, KeyError, IOError and its base
    class Error. Each becomes one constructor of `Error`, carrying the message. */
module Wrappers {

  datatype Option<+T> = None | Some(value: T)

  datatype Error =
    | ValueError(msg: string)
    | KeyError(msg: string)
    | IOError(msg: string)
    | RuntimeError(msg: string)
    | TypeError(msg: string)
    | CyclusError(msg: string)

  datatype Result<+T> = Success(value: T) | Failure(error: Error) {
    predicate IsFailure() { Failure? }
    function PropagateFailure<U>(): Result<U>
      requires Failure?
    {
      Failure(error)
    }
    function Extract(): T
      requires Success?
    {
      value
    }
  }

  /** The outcome of an operation that returns nothing but may throw. */
  datatype Outcome = Pass | Fail(error: Error)
}
