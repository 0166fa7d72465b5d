/** Failure-carrying values shared by the validators and the queue engine. */
module Results {

  /** An optional value: a record found by a lookup, or nothing. */
  datatype Option<+T> = None | Some(value: T)

  /** The outcome of an operation that either produces a value or fails with an error. */
  datatype Result<+T, +E> = Success(value: T) | Failure(error: E)
}
