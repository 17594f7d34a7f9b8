/** Wrappers for values that may be absent and for operations that may fail. */
module Wrappers {

  datatype Option<+T> = None | Some(value: T)

  /** The outcome of an operation that either yields a value or raises an error with a message. */
  datatype Result<+T> = Success(value: T) | Failure(error: string)
}
