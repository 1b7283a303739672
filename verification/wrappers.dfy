/** Option and Result values shared by every module of the model. */
module Wrappers {

  /** A value that may be missing: JavaScript `undefined`/`null`, Python `None`. */
  datatype Option<+T> = None | Some(value: T)

  /** The outcome of an operation that can raise or throw. */
  datatype Result<+R, +E> = Ok(value: R) | Err(error: E)
}
