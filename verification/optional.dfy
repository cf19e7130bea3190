/** Option and Result, the two failure-carrying shapes the model uses for
    JavaScript's `undefined`-or-value and throw-or-return. */
module Optional {

  datatype Option<+T> = None | Some(value: T) {

    /** `x ?? d` for a value that is either present or undefined. */
    function GetOr(default: T): T {
      match this
      case Some(v) => v
      case None => default
    }
  }

  /** A call that either returns a value or throws an error carrying a message. */
  datatype Result<+T> = Ok(value: T) | Err(message: string)
}
