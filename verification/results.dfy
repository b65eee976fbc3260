/** Absence and failure, as the Python code expresses them with `None` and exceptions. */
module Results {

  /** A value that may be absent: Python's `None`, or a present value. */
  datatype Option<+T> = None | Some(value: T)

  /** The outcome of a call that can raise: the value it returns, or the exception it raises. */
  datatype Result<+T, +E> = Ok(value: T) | Err(error: E)
}
