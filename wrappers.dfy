/** Kotlin's nullable types (`String?`, `Exception?`) as an explicit option. */
module Wrappers {

  datatype Option<+T> = None | Some(value: T) {

    /** Kotlin's elvis operator `this ?: default`. */
    function GetOr(default: T): T {
      match this
      case Some(v) => v
      case None => default
    }
  }
}
