/** Exceptions thrown by the services and controllers, and the HTTP status codes they carry. */
module Errors {
  import opened Wrappers

  const OK := 200
  const CREATED := 201
  const UNAUTHORIZED := 401
  const NOT_FOUND := 404
  const CONFLICT := 409
  const INTERNAL_SERVER_ERROR := 500

  /** Which class an exception is an instance of; `PlainError` is a bare `Error` with no status. */
  datatype ErrorKind = PlainError | HttpError | UnauthorizedError | ConflictError

  /**
   * A thrown value: its class, its `status` property (absent on a plain `Error`)
   * and its `message` property ("" is falsy).
   */
  datatype Error = Error(kind: ErrorKind, status: Option<int>, message: string)

  function HttpException(message: string, status: int): Error
  {
    Error(HttpError, Some(status), message)
  }

  function UnauthorizedException(message: string): Error
  {
    Error(UnauthorizedError, Some(UNAUTHORIZED), message)
  }

  function ConflictException(message: string): Error
  {
    Error(ConflictError, Some(CONFLICT), message)
  }
}
