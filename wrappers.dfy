/** Failure-carrying wrappers: a nullable value, and an outcome that is either
    a value or the exception the source would raise. */
module Wrappers {

  /** A value that may be absent (`null`/`undefined` in the source). */
  datatype Option<+T> = None | Some(value: T)

  /** Either a normal result or the failure the source signals by throwing. */
  datatype Result<+T, +E> = Ok(value: T) | Err(error: E)
}
