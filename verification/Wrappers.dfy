/** Result and option types shared by the models. */
module Wrappers {

  datatype Option<+T> = None | Some(value: T)

  /** The error codes with which the services refuse a request. */
  datatype ErrorCode = AuthUnavailable | ConfigInvalid | Conflict | Forbidden | NotFound | RateLimited

  /** A service reply: a value, or a refusal that left every row as it was. */
  datatype Reply<+T> = Ok(value: T) | Refused(code: ErrorCode)
}
