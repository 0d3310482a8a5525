// Optional values and error results shared by every module.
module Wrappers {
  /** A value that may be absent: TypeScript's `T | null | undefined`. */
  datatype Option<T> = None | Some(value: T)
  {
    /** `x ?? d`: the value when present, the default otherwise. */
    function OrElse(d: T): T {
      if Some? then value else d
    }
  }

  /** The outcome of an operation that may throw. */
  datatype Result<T> = Ok(value: T) | Err(error: string)
}
