/** Values for lookups that may miss and for calls that may fail. */
module Wrappers {

  /** A lookup result: Swift's `T?`. */
  datatype Option<+T> = None | Some(value: T)

  /** A completion result: Swift's `Result<T, Error>`, with the error kept as its message. */
  datatype Result<+T, +E> = Success(value: T) | Failure(error: E)
}
