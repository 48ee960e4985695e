/** Python's `None` next to a value: a nullable database column or a missing key. */
module Optional {

  datatype Option<+T> = None | Some(value: T) {

    /** The value, or `default` for `None` (Python's `x if x is not None else default`). */
    function GetOr(default: T): T {
      match this
      case Some(v) => v
      case None => default
    }
  }
}
