/** Python's `None`-or-value, shared by every module of the model. */
module Optional {

  datatype Option<+T> = None | Some(value: T) {

    /** The value, or a default when None (Python's `x if x is not None else d`). */
    function GetOr(default: T): T
    {
      match this
      case Some(v) => v
      case None => default
    }
  }

  /** A result that is either a value or the message of a raised exception. */
  datatype Result<+T> = Ok(value: T) | Err(message: string)
}
