/** Optional values, results and outcomes used throughout the model. */
module Wrappers {

  /** A value that may be missing: pandas' NaN in an object or float column. */
  datatype Option<+T> = None | Some(value: T)

  /** The value of a computation, or the exception that aborted it. */
  datatype Result<+T, +E> = Ok(value: T) | Err(error: E)

  /** A computation run for its effect: it completed, or it raised. */
  datatype Outcome<+E> = Pass | Fail(error: E)
}
