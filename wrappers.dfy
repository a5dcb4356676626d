/** Optional values: `None` stands for JavaScript's `null` or `undefined`
    (or for `NaN` where a number parse fails). */
module Wrappers {

  datatype Option<+T> = None | Some(value: T) {

    /** The value, or `default` when there is none (JavaScript's `x ?? default`). */
    function GetOr(default: T): T {
      match this
      case Some(v) => v
      case None => default
    }
  }
}
