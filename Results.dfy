/** Optional values and results with an error, as used by every module of the model. */
module Results {

  datatype Option<+T> = None | Some(value: T)

  /** The outcome of an operation that can stop with an error, as the Python code does by raising. */
  datatype Result<+T, +E> = Ok(value: T) | Err(error: E)
}
