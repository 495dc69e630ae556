/** Failure-carrying datatypes shared by the producer and the collector models. */
module Results {

  /** A value that may be absent; `None` stands for Go's nil pointer. */
  datatype Option<+T> = None | Some(value: T)

  /** A value or an error, for Go's `(value, error)` returns. */
  datatype Result<+T, +E> = Ok(value: T) | Err(error: E)

  /** Success, or an error with no accompanying value, for Go's plain `error` returns. */
  datatype Outcome<+E> = Pass | Fail(error: E)
}
