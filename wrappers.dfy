/** Option and Result datatypes shared by the model. */
module Wrappers {

  /** A value that may be absent: JavaScript's `null` (or `undefined`) becomes `None`. */
  datatype Option<+T> = None | Some(value: T)

  /** The value a JavaScript function returns, or the error it throws instead. */
  datatype Result<+T, +E> = Ok(value: T) | Err(error: E)
}
