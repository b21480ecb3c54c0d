/** Failure-carrying wrappers shared by the whole model. */
module Results {

  /** A value that may be absent: the model of a nullable reference or of a
      `TryParse` that reports failure through its boolean result. */
  datatype Option<+T> = None | Some(value: T)

  /** Either a computed value or the reason it could not be computed. */
  datatype Result<+T, +E> = Success(value: T) | Failure(error: E)

  /** A check that either passes or fails with an error. */
  datatype Outcome<+E> = Pass | Fail(error: E)
}
