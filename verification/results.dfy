/** Failure-carrying values used throughout the model: `Option` for Python's
    `None`-or-value, `Result` for a value-or-exception, `Outcome` for a check
    that either passes or raises. */
module Results {

  datatype Option<+T> = None | Some(value: T)

  datatype Result<+T, +E> = Success(value: T) | Failure(error: E)

  datatype Outcome<+E> = Pass | Fail(error: E)
}
