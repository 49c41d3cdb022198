/** Optional values and success/failure results shared by the backend and the front end. */
module Results {

  datatype Option<T> = None | Some(value: T)

  /** A computation that either produced a value or failed with an error. */
  datatype Result<T, E> = Success(value: T) | Failure(error: E)
}
