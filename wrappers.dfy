/** Optional values and results with an error, shared by the other modules. */
module Wrappers {

  /** A value that may be missing; for a database column, None is SQL NULL. */
  datatype Option<+T> = None | Some(value: T)

  /** The outcome of an operation that can fail with an error of type E. */
  datatype Result<+T, +E> = Ok(value: T) | Err(error: E)
}
