/** Small shared vocabulary: the optional value that stands for Kotlin's nullable types. */
module Util {

  /** `T?` in the Kotlin sources: `None` is `null`. */
  datatype Option<+T> = None | Some(value: T) {

    /** The Elvis operator `x ?: default`. */
    function GetOr(default: T): T {
      match this
      case Some(v) => v
      case None => default
    }
  }

  /** The last element of a non-empty sequence. */
  function Last<T>(s: seq<T>): T
    requires s != []
  {
    s[|s| - 1]
  }
}
