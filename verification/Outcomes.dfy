/** Result and option types standing for the source's exceptions and absent values. */
module Outcomes {

  datatype Option<+T> = None | Some(value: T) {
    function GetOr(fallback: T): T {
      if Some? then value else fallback
    }
  }

  /** A call either returns a value or throws. */
  datatype Result<+T, +E> = Ok(value: T) | Err(error: E)
}
