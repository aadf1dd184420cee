/** Failure-compatible wrappers shared by every module of the model. */
module Wrappers {

  /** A value that may be absent: a C# nullable reference or an optional side effect. */
  datatype Option<+T> = None | Some(value: T)

  /** The outcome of an operation that can violate a run-time contract. */
  datatype Result<+T, +E> = Success(value: T) | Failure(error: E)
}
