/** Values shared by every component: an optional value and the outcome of an operation. */
module Common {
  datatype Option<+T> = None | Some(value: T) {
    /** The `a ?? b` operator. */
    function GetOr(default: T): T {
      if Some? then value else default
    }
  }

  datatype Result<+T, +E> = Ok(value: T) | Err(error: E)
}
