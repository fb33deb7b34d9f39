/** Optional values, for the columns and fields that may be absent. */
module Wrappers {

  datatype Option<+T> = None | Some(value: T) {

    /** The value, or `default` when there is none. */
    function GetOr(default: T): T {
      match this
      case Some(v) => v
      case None => default
    }

    /** The first of two options that has a value. */
    function Or(other: Option<T>): Option<T> {
      if Some? then this else other
    }
  }
}
