/** Option and Result, the stock failure-carrying datatypes used by the model. */
module Wrappers {

  /** A slot that may be empty; stands for a nil-able pointer. */
  datatype Option<+T> = None | Some(value: T)

  /** The outcome of an operation that either yields a value or fails with an error. */
  datatype Result<+T, +E> = Ok(value: T) | Err(error: E)
}
