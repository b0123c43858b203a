/** Failure-compatible and optional values shared by the whole project. */
module Wrappers {
  datatype Option<+T> = None | Some(value: T) {
    /** The value, or `default` when absent. */
    function GetOr(default: T): T {
      match this
      case Some(v) => v
      case None => default
    }
  }

  datatype Result<+T, +E> = Ok(value: T) | Err(error: E)
}

/** Octets, and octet strings as sequences of them. */
module Octets {
  newtype byte = x: int | 0 <= x < 256
  type Bytes = seq<byte>
}
