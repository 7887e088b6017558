/** Optional values and results with an error value, for the TypeScript
    `T | null` / `undefined` and thrown errors of the modelled code. */
module Wrappers {

  datatype Option<+T> = None | Some(value: T) {
    function GetOr(default: T): T {
      match this
      case Some(v) => v
      case None => default
    }
  }

  datatype Result<+T, +E> = Success(value: T) | Failure(error: E)
}
