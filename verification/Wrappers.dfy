// The optional value and the error-carrying result shared by every module.
module Wrappers {

  datatype Option<+T> = None | Some(value: T)

  // The codes a domain error carries (internal/entity/errors.go).
  datatype ErrorCode =
    | InvalidRequest | NotFound | Conflict | AlreadyVoted
    | RateLimited | QuotaExceeded | Unavailable | Internal

  datatype Result<+T> = Ok(value: T) | Err(code: ErrorCode)

  // What can befall one call to a server: nothing, it never arrives, or it takes
  // effect and the reply is lost.
  datatype Fault = NoFault | NotSent | ReplyLost
}
