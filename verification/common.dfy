/** Values shared by every part of the harness model. */
module Common {

  /** Python's `None`-or-value, used for streams and return codes that may be missing. */
  datatype Option<+T> = None | Some(value: T) {

    /** The value, or `default` when there is none (Python's `x if x is not None else default`). */
    function GetOr(default: T): T {
      match this
      case Some(v) => v
      case None => default
    }
  }
}
