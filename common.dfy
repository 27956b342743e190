/** Shared result types for the route handlers and the client helpers. */
module Common {

  datatype Option<+T> = None | Some(value: T) {
    /** The value, or `default` when there is none. */
    function GetOr(default: T): T {
      match this
      case Some(v) => v
      case None => default
    }
  }

  /** The HTTP error statuses the backend handlers raise. */
  datatype Status =
    | BadRequest     // 400: empty patch, missing filename, disallowed file type
    | Unauthorized   // 401: the admin dependency rejected the bearer token
    | NotFound       // 404: unknown id
    | Unprocessable  // 422: request validation failed
    | ServerError    // 500: storage failure, or a handler returning nothing

  /** HTTP code of a status. */
  function Code(s: Status): (code: nat)
    ensures 400 <= code < 600
  {
    match s
    case BadRequest => 400
    case Unauthorized => 401
    case NotFound => 404
    case Unprocessable => 422
    case ServerError => 500
  }

  /** A handler outcome: a value, or the HTTPException it raises. */
  datatype Result<+T> = Ok(value: T) | Err(status: Status)
}
