// The HTTP failures the backend's handlers raise, by status code.
module Http {
  /** An `HTTPException`: a status code and its detail message. */
  datatype HttpError = HttpError(status: int, detail: string)

  const BadRequest: int := 400
  const Unauthorized: int := 401
  const NotFound: int := 404
  const Conflict: int := 409
  /** A request the framework's parameter or body validation refuses. */
  const UnprocessableEntity: int := 422
}
