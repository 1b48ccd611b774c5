/** Optional values and outcomes with an error, shared by every module of the model. */
module Base {

  /** A value that may be absent (Python's None). */
  datatype Option<T> = None | Some(value: T)

  /** The outcome of an operation that either succeeds or raises one of the service's errors. */
  datatype Result<T, E> = Ok(value: T) | Err(error: E)
}
