/** Optional values: JavaScript's `null` / `undefined` / `NaN` results. */
module Wrappers {

  datatype Option<+T> = None | Some(value: T) {

    /** Returns the value, or `default` when there is none (JavaScript's `x ?? d`). */
    function GetOr(default: T): T {
      match this
      case Some(v) => v
      case None => default
    }
  }
}
