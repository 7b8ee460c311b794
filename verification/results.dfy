/** Outcome types shared by the model: Go's `(value, error)` pairs become `Result`,
    an `error` that may be nil becomes `Option<Error>`. */
module Results {

  /** An error value as Go's `error` interface carries it; only its identity matters here. */
  datatype Error = Error(message: string)

  datatype Option<T> = None | Some(value: T)

  datatype Result<T> = Success(value: T) | Failure(error: Error)
}
