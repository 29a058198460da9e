/**
 * The profile route: it returns the identity the guard attached to the request,
 * 404 when none is attached, and rethrows any failure as an HttpException with
 * the failure's message and status, or fallbacks for either when missing.
 */
module UserController {
  import opened Wrappers
  import opened Errors
  import opened Js

  const UserNotFound := "User not found"
  const UnexpectedError := "An unexpected error occurred"

  /**
   * The catch block: `new HttpException(error.message || fallback, error.status || 500)`.
   * A missing or empty message and a missing or zero status are falsy.
   */
  function Rewrap(e: Error): (r: Error)
    ensures r.kind == HttpError
    ensures e.message != "" ==> r.message == e.message
    ensures e.message == "" ==> r.message == UnexpectedError
    ensures e.status.Some? && e.status.value != 0 ==> r.status == e.status
    ensures e.status.None? || e.status == Some(0) ==> r.status == Some(INTERNAL_SERVER_ERROR)
  {
    var message := if e.message != "" then e.message else UnexpectedError;
    var status := if e.status.Some? && e.status.value != 0 then e.status.value else INTERNAL_SERVER_ERROR;
    HttpException(message, status)
  }

  /**
   * `GET user/profile` for the request's `user`. `stringifyError` is what the
   * logging call's `JSON.stringify(req.user)` throws, if anything (a circular
   * structure, say).
   */
  function GetProfile(user: JsValue, stringifyError: Option<Error>): (r: Result<JsValue, Error>)
    ensures r.Success? ==> stringifyError.None? && Truthy(user) && r.value == user
    ensures stringifyError.None? && Truthy(user) ==> r == Success(user)
    ensures stringifyError.None? && !Truthy(user) ==> r == Failure(HttpException(UserNotFound, NOT_FOUND))
    ensures stringifyError.Some? ==> r == Failure(Rewrap(stringifyError.value))
    ensures r.Failure? ==> r.error.kind == HttpError && r.error.message != ""
    ensures r.Failure? ==> r.error.status.Some? && r.error.status.value != 0
  {
    var attempt: Result<JsValue, Error> :=
      if stringifyError.Some? then Failure(stringifyError.value)
      else if !Truthy(user) then Failure(HttpException(UserNotFound, NOT_FOUND))
      else Success(user);
    match attempt
    case Success(v) => Success(v)
    case Failure(e) => Failure(Rewrap(e))
  }
}
