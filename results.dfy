/** Success/failure values for the operations that the web layer turns into
    4xx responses. */
module Results {

  datatype Result<+T, +E> = Success(value: T) | Failure(error: E)

  datatype Outcome<+E> = Pass | Fail(error: E)

  datatype Option<+T> = None | Some(value: T)
}
