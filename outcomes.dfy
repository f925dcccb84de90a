/** Failure-carrying results shared by every module of the model. */
module Outcomes {

  datatype Option<+T> = None | Some(value: T)

  /** A computation that either yields a value or fails with the error the source raises. */
  datatype Result<+T, +E> = Ok(value: T) | Err(error: E)
}
