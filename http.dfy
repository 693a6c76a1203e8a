/** The HTTP statuses the two controllers answer with. */
module Http {

  datatype Status = Ok | BadRequest | UnprocessableEntity | InternalServerError

  function Code(s: Status): int
  {
    match s
    case Ok => 200
    case BadRequest => 400
    case UnprocessableEntity => 422
    case InternalServerError => 500
  }

  /**
   * What a controller method gives back: a `ResponseEntity` with a status and a body,
   * or an exception that escapes it (the web framework then answers 500 on its own).
   */
  datatype Reply<+B> = Reply(status: Status, body: B) | Unhandled
}
