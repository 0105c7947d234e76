/** Option and Result, the two failure-carrying shapes the model uses. */
module Wrappers {

  datatype Option<+T> = None | Some(value: T) {
    function GetOr(default: T): T {
      if Some? then value else default
    }
  }

  /** A computation that either produced a value or raised an error with a message. */
  datatype Result<+T> = Ok(value: T) | Err(message: string)
}
