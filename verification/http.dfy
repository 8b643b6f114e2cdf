// The server's handler results: a value, or the HTTP error a handler
// raises (FastAPI's HTTPException, or an unhandled exception, which the
// framework answers with status 500).

module Http {
  datatype HttpError = HttpError(status: int, detail: string)

  datatype Result<T> = Ok(value: T) | Err(error: HttpError)

  const BadRequest: int := 400
  const Unauthorized: int := 401
  const NotFound: int := 404
  const InternalServerError: int := 500
}
