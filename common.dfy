/** Small value types shared by the other modules. */
module Wrappers {

  /** The conventional optional value. */
  datatype Option<+T> = None | Some(value: T) {

    /** The carried value, or `default` when there is none. */
    function GetOr(default: T): T {
      match this
      case Some(v) => v
      case None => default
    }
  }
}

module Bytes {

  /** One octet, as held by a Node.js `Buffer`. */
  newtype byte = x: int | 0 <= x < 256
}
