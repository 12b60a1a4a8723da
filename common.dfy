/** Value wrappers shared by every module: a nullable value and an operation that may fail. */
module Common {

  /** A JavaScript value that may be `null` or `undefined`. */
  datatype Option<T> = None | Some(value: T)

  /** The outcome of an operation that either returns a value or throws an error. */
  datatype Result<T, E> = Success(value: T) | Failure(error: E)
}
