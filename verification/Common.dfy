/** Shared result types. */
module Common {

  type Byte = n: nat | n < 256

  /** A value that may be absent, as the source's `Option` and `null` are. */
  datatype Option<+T> = None | Some(value: T) {

    /** The value, or `default` when there is none. */
    function GetOr(default: T): T {
      match this
      case Some(v) => v
      case None => default
    }

    /** This value, or `other` when there is none. */
    function Or(other: Option<T>): Option<T> {
      if Some? then this else other
    }
  }
}
