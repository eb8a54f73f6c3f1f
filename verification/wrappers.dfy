/** An optional value, used wherever the logger treats
    something as possibly absent (a file, a caller frame, an OS error). */
module Wrappers {

  datatype Option<+T> = None | Some(value: T) {

    /** The value if present, else `default`. */
    function GetOr(default: T): T {
      match this
      case Some(v) => v
      case None => default
    }
  }
}
