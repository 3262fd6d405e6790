/** Optional values, standing for a JavaScript `null`/`undefined` or a Python `None`. */
module Options {
  datatype Option<+T> = None | Some(value: T) {
    function GetOr(default: T): T {
      match this
      case Some(v) => v
      case None => default
    }
  }
}
