/** Option and Result, the two failure-carrying datatypes used throughout the model. */
module Wrappers {

  datatype Option<+T> = None | Some(value: T)

  /** `Err` carries why an operation stopped; the source raises an exception there. */
  datatype Result<+T, +E> = Ok(value: T) | Err(error: E)
}
