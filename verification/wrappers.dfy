/** Failure-compatible datatypes used across the model. */
module Wrappers {

  /** An optional value; stands for a TypeScript `T | null` or an optional property. */
  datatype Option<+T> = None | Some(value: T)

  /** The outcome of an operation that either returns a value or throws an error. */
  datatype Result<+T, +E> = Success(value: T) | Failure(error: E)
}
