/** What a route handler produces, how its `except` clauses classify failures,
    and what a call into a foreign library can come back with. */
module Http {
  import opened PyValues

  /** The handler's reply: a JSON body, or an `HTTPException` that FastAPI
      turns into an error reply. */
  datatype Response = Ok(body: Json) | HttpError(status: int, detail: string)

  /** An exception travelling out of a handler's `try` block: an
      `HTTPException` the handler raised itself, or any other exception
      (rendered by `str(e)`). */
  datatype Exc = HttpExc(status: int, detail: string) | Other(message: string)

  /** The result of a call into code the controllers cannot see (the agent's
      admin API, a model constructor): a value, or an exception whose `str` is given. */
  datatype Outcome<+T> = Done(value: T) | Raised(message: string)

  /** The outcome of `asyncio.wait_for` as its handler sees it: the call
      finished in time (with a value or an exception other than a
      `TimeoutError`), or a `TimeoutError` reached the handler's
      `except asyncio.TimeoutError`, whether the deadline passed or the call
      raised `TimeoutError` itself (the two are one class since Python 3.11). */
  datatype Deadline<+T> = InTime(outcome: Outcome<T>) | Expired

  /** `str()` of the RuntimeError raised by `get_client()` before the agent
      client is set up. */
  const ClientNotInitialized: string := "ACA-Py client not initialized"

  /** The common tail of a handler's exception handling: an HTTP error raised
      inside passes through with its status and detail; any other exception
      becomes an HTTP error with `status` and the exception's text after
      `prefix`. */
  function Catch(e: Exc, status: int, prefix: string): (r: Response)
    ensures r.HttpError?
    ensures e.HttpExc? ==> r.status == e.status && r.detail == e.detail
    ensures e.Other? ==> r.status == status && r.detail == prefix + e.message
  {
    match e
    case HttpExc(s, d) => HttpError(s, d)
    case Other(m) => HttpError(status, prefix + m)
  }
}
