/** Option and Result, used wherever the table returns "nothing" or throws. */
module Wrappers {
  datatype Option<T> = None | Some(value: T) {
    /** `x ?? d` for an optional value. */
    function GetOr(default: T): T {
      if Some? then value else default
    }
  }

  /** A computation that either yields a value or throws with a message. */
  datatype Result<T> = Ok(value: T) | Err(message: string)
}
