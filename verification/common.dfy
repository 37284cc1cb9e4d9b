/** Small result types shared by the route handlers and the client components. */
module Common {

  /** A value that may be absent: JavaScript's `undefined`/`null` for an optional field. */
  datatype Option<+T> = None | Some(value: T) {

    /** The value, or `default` when absent (JavaScript's `??`). */
    function GetOr(default: T): T {
      match this
      case Some(v) => v
      case None => default
    }
  }

  /** What an HTTP route handler answers: a JSON body, or a status code with its message. */
  datatype Reply<+T> = Ok(value: T) | Error(status: int, message: string)

  /** The HTTP status codes the handlers use. */
  const BadRequest: int := 400
  const NotFoundStatus: int := 404
  const ServerError: int := 500
}
