/** Optional values: a JavaScript property or array slot that may be `undefined`
    (or the controller's `false` meaning "no active row/piece") is `None`. */
module Wrappers {

  datatype Option<+T> = None | Some(value: T) {

    /** The value, or `default` when there is none. */
    function GetOr(default: T): T {
      match this
      case Some(v) => v
      case None => default
    }
  }
}
