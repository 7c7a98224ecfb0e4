/** Bytes, optional values and results with an error side, used by every other module. */
module Wrappers {

  /** An unsigned 8-bit value, as C#'s byte. */
  newtype Byte = b: int | 0 <= b < 256

  /** A value that may be missing: a null reference, or a NaN reading. */
  datatype Option<T> = None | Some(value: T)

  /** The outcome of an operation that either returns a value or throws. */
  datatype Result<T, E> = Ok(value: T) | Err(error: E)

  /** The outcome of an operation that returns nothing or throws. */
  datatype Outcome<E> = Pass | Fail(error: E)
}
