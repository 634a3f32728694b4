/** Optional values: TypeScript's `T | null | undefined`, with null and undefined merged. */
module Wrappers {

  datatype Option<+T> = None | Some(value: T) {

    /** `x ?? d`: the value when present, otherwise the default. */
    function GetOr(default: T): T {
      match this
      case Some(v) => v
      case None => default
    }
  }

  /** A computation that either produces a value or throws an error message. */
  datatype Result<+T> = Ok(value: T) | Err(message: string)
}
