/** Option and Result: the error returns that stand in for the source's exceptions and dialogs. */
module Wrappers {

  datatype Option<+T> = None | Some(value: T)

  datatype Result<+T, +E> = Ok(value: T) | Err(error: E)
}
