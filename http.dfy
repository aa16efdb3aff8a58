/** What a route handler answers: an HTTP status code and, on success, a JSON body. */
module Http {
  import opened Wrappers

  const OK := 200
  const NoContent := 204
  const BadRequest := 400
  const Unauthorized := 401
  const Forbidden := 403
  const NotFound := 404
  const ServerError := 500

  datatype Reply<+T> = Reply(status: int, body: Option<T>)

  /** A reply without a body (the `new NextResponse(message, { status })` answers). */
  function Fail<T>(status: int): Reply<T> {
    Reply(status, None)
  }

  /** A `NextResponse.json(body)` answer. */
  function Ok<T>(body: T): Reply<T> {
    Reply(OK, Some(body))
  }
}
