/** Option and Result: JavaScript's `null`/`undefined` and thrown errors, made explicit. */
module Wrappers {

  /** A value that may be absent (`null` or `undefined` in the source). */
  datatype Option<+T> = None | Some(value: T)

  /** The outcome of an operation that may throw; an error carries its message. */
  datatype Result<+T> = Ok(value: T) | Err(error: string)
}
