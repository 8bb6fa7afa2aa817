/** Outcomes of the store operations: a value, or one of the errors the
    services raise. */
module Results {

  /** The exception kinds the services throw. `Internal` stands for an
      error that is not one of the HTTP exceptions: a plain `Error` thrown by
      a resolver, or a unique-constraint violation raised by the store. */
  datatype Error = NotFound | Conflict | BadRequest | Validation | Internal

  datatype Option<+T> = None | Some(value: T)

  datatype Result<+T> = Success(value: T) | Failure(error: Error)
}
