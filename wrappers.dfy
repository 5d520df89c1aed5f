/** Option and Result, used for Python's None and for raised exceptions, and `dict.get`. */
module Wrappers {

  datatype Option<+T> = None | Some(value: T) {
    function GetOr(default: T): T {
      match this
      case Some(v) => v
      case None => default
    }
  }

  datatype Result<+R, +E> = Success(value: R) | Failure(error: E)

  /** Python `d.get(key, default)`. */
  function Get<K, V>(d: map<K, V>, key: K, default: V): V {
    if key in d then d[key] else default
  }
}
