/** Small shared datatypes. */
module Common {

  /** A value that may be absent: JavaScript's `null` / `undefined` for an optional field. */
  datatype Option<+T> = None | Some(value: T) {

    /** The value, or `default` when absent (JavaScript's `x || default` for an object). */
    function GetOr(default: T): T {
      match this
      case Some(v) => v
      case None => default
    }
  }
}
