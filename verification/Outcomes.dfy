/** The two result types used throughout the model. */
module Outcomes {
  /** A value that may be missing. */
  datatype Option<+T> = None | Some(value: T)

  /** A value or the error the source would return instead. */
  datatype Result<+T, +E> = Ok(value: T) | Err(error: E)
}
