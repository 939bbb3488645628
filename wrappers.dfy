/** Failure-carrying results. A JavaScript exception (`throw new Error(msg)`, a
    TypeError raised by the runtime) is modelled as `Failure(msg)`. */
module Wrappers {

  datatype Option<+T> = None | Some(value: T)

  datatype Result<+T> = Success(value: T) | Failure(error: string)

  /** The result of an operation that returns nothing but may throw. */
  datatype Outcome = Pass | Fail(error: string)
}
