/** Nullable values and fallible results. */
module Options {

  /** A value that may be missing: JavaScript's `null`/`undefined` is `None`. */
  datatype Option<+T> = None | Some(value: T) {

    /** The value, or `default` when missing (JavaScript's `x || default` for a non-zero `x`). */
    function GetOr(default: T): T {
      match this
      case Some(v) => v
      case None => default
    }
  }

  /** The outcome of a ledger operation: the new value, or why nothing was written. */
  datatype Result<+T, +E> = Ok(value: T) | Err(error: E)
}
