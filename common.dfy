/** Shared value types of the watcher: optional values and content digests. */
module Common {

  /** Python's `None`-or-value. */
  datatype Option<T> = None | Some(value: T) {

    /** The wrapped value, or `default` for `None`. */
    function GetOr(default: T): T {
      match this
      case Some(v) => v
      case None => default
    }
  }

  /** The hex digest `file_hash` returns; how it is computed is not modelled. */
  type Digest = string
}
