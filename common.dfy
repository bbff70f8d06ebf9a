/** Small value types shared by every module of the model. */
module Common {

  /** An optional value: Rust's `Option`, Python's `None`-or-value. */
  datatype Option<+T> = None | Some(value: T)

  /** A value or an error: Rust's `Result`. */
  datatype Result<+T, +E> = Ok(value: T) | Err(error: E)

  /** One octet of an object body or of an encoder's output. */
  newtype byte = b: int | 0 <= b < 256
}
