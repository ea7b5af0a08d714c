/** Optional values: a JSON field or a row column that may be absent or null. */
module Wrappers {

  datatype Option<+T> = None | Some(value: T) {

    /** The value when present, otherwise `default` (JavaScript's `x ?? default`). */
    function GetOr(default: T): T {
      match this
      case Some(v) => v
      case None => default
    }
  }

  /** A field of a partial update: left as it is, or set to a new value. */
  datatype Patch<+T> = Keep | Set(value: T) {

    function Apply(current: T): T {
      match this
      case Keep => current
      case Set(v) => v
    }
  }
}
