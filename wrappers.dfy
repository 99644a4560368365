/** Optional values (Swift's `T?`) and raw bytes (Foundation's `Data`). */
module Wrappers {

  datatype Option<+T> = None | Some(value: T) {

    /** The wrapped value, or `default` for `None` (Swift's `??`). */
    function GetOr(default: T): T {
      match this
      case Some(v) => v
      case None => default
    }
  }

  type Bytes = seq<bv8>
}
