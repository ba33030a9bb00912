/** Optional values: JavaScript's `undefined`/`null`/NaN where the source allows them. */
module Options {
  datatype Option<+T> = None | Some(value: T) {
    function GetOr(default: T): T {
      match this
      case Some(v) => v
      case None => default
    }
  }
}
