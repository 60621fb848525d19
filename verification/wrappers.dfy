/** Option and Result, the failure-carrying values every operation of the model returns. */
module Wrappers {

  datatype Option<+T> = None | Some(value: T)

  /** The outcome of an operation: a value, or the error the request fails with. */
  datatype Result<+T, +E> = Ok(value: T) | Err(error: E)
}
