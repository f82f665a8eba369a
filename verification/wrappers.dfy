/** Option and Result datatypes shared by the model's modules. */
module Wrappers {

  /** A value that may be absent: JavaScript's `undefined`/`null` or a `NaN` date. */
  datatype Option<+T> = None | Some(value: T)

  /** The outcome of a computation that may throw: the value, or the thrown `Error`'s message. */
  datatype Result<+T> = Success(value: T) | Failure(message: string)
}
