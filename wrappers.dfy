/** The nullable result of PHP (`?string`, `?int`, `?array`) as a datatype. */
module Wrappers {

  datatype Option<+T> = None | Some(value: T) {

    /** `$x ?? $default` */
    function GetOr(default: T): T {
      match this
      case Some(v) => v
      case None => default
    }
  }
}
