/** Small failure-compatible wrappers shared by every module of the model. */
module Wrappers {

  /** A value that may be absent: JavaScript's `undefined`/`null` on one side, a value on the other. */
  datatype Option<+T> = None | Some(value: T) {
    function GetOr(default: T): T {
      match this
      case Some(v) => v
      case None => default
    }
  }

  /** The outcome of an operation that can fail with an error value. */
  datatype Result<+T, +E> = Success(value: T) | Failure(error: E)
}

/** The HTTP replies the route handlers send: a status and either a body or an error message. */
module Http {

  datatype Reply<+T> =
    | Ok(status: nat, body: T)
    | Err(status: nat, message: string)
  {
    predicate IsError() { Err? }
  }
}
