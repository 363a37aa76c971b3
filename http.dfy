/** What a FastAPI handler answers: a status code with a body, or an `HTTPException`. */
module Http {

  datatype Response<T> = Ok(status: int, body: T) | Error(status: int, detail: string)

  /** A handler that answers with no body (status 204). */
  datatype Empty = Empty
}
