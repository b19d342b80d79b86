/** Failure-carrying values shared by the whole model. */
module Common {

  /** A value that may be absent (Python's `None`). */
  datatype Option<T> = None | Some(value: T) {
    function GetOr(default: T): T
    {
      if Some? then value else default
    }
  }

  /** The outcome of an operation that can raise: a value, or the error it raises. */
  datatype Result<T, E> = Ok(value: T) | Err(error: E)
}
