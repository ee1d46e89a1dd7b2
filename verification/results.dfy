/** Failure-carrying values used across the model. */
module Results {

  /** An optional value; `None` stands for Python's "absent". */
  datatype Option<+T> = None | Some(value: T)

  /** The outcome of an operation that either produces a value or raises. */
  datatype Result<+T, +E> = Ok(value: T) | Err(error: E)
}
