/** Outcome types shared by every route of the backend.  A route either
    produces a value or fails with the HTTP status code and the `detail`
    text that FastAPI would send back in the error body. */
module Results {

  /** A value that may be absent (Python's `None`). */
  datatype Option<+T> = None | Some(value: T)

  /** An `HTTPException(status_code, detail)`. */
  datatype HttpError = HttpError(status: int, detail: string)

  /** The outcome of a route that returns data on success. */
  datatype Result<+T> = Ok(value: T) | Err(error: HttpError)

  /** The outcome of a check that returns nothing on success. */
  datatype Outcome = Pass | Fail(error: HttpError)
}
