/** Optional values, for the application's `undefined`/absent fields. */
module Wrappers {

  datatype Option<+T> = None | Some(value: T) {

    /**
     * The value, or `default` when absent. A present "" is kept, unlike `x || default`
     * in JavaScript; the two agree for `result.text || ""` because there the default is "" too.
     */
    function GetOr(default: T): T {
      match this
      case Some(v) => v
      case None => default
    }
  }
}
