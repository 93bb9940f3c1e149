/** Failure-carrying results shared by the backend handlers and the client stores. */
module Common {

  datatype Option<T> = None | Some(value: T)

  /** An HTTP error as the backend raises it: a status code and the `detail` text shown to the user. */
  datatype HttpError = HttpError(status: int, detail: string)

  /** The outcome of one backend handler: the value it returns, or the HTTP error it raises. */
  datatype Result<T> = Ok(value: T) | Err(error: HttpError)

  /** How a client request ended, as the page sees it: the request went through, or it
      threw, possibly carrying the error's `detail`. */
  datatype Response = Done | Failed(detail: Option<string>)

  /** The text a page shows for a failed request: `error.response?.data?.detail || fallback`. */
  function ErrorText(detail: Option<string>, fallback: string): (t: string)
    ensures detail.Some? && detail.value != "" ==> t == detail.value
    ensures detail.None? || detail.value == "" ==> t == fallback
  {
    if detail.Some? && detail.value != "" then detail.value else fallback
  }

  const NotFound := 404
  const BadRequest := 400
  const Unauthorized := 401
  const Forbidden := 403
  const InternalError := 500
}
