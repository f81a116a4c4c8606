/** Small value types shared by every module: an optional value, and the
    answer a remote call of the hosted backend gives (success, or an error
    carrying the backend's message). */
module Wrappers {

  datatype Option<+T> = None | Some(value: T) {
    function GetOr(default: T): T {
      match this
      case Some(v) => v
      case None => default
    }
  }

  /** The answer of one awaited backend call: `{ error }` is null or not. */
  datatype Reply = Ok | Err(message: string) {
    predicate Failed() { Err? }
  }
}
