/** Failure-carrying values shared by every module of the model. */
module Base {

  /** A value that may be absent: Python's `Optional[T]` / `None`. */
  datatype Option<+T> = None | Some(value: T)

  /** A computation that either yields a value or raises the given error. */
  datatype Result<+T, +E> = Ok(value: T) | Err(error: E)
}
