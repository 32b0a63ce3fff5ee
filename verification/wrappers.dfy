/** Optional values, standing for JavaScript's `null`/`undefined` where the
    program does not distinguish the two. */
module Wrappers {

  datatype Option<+T> = None | Some(value: T) {

    /** The value, or `default` when there is none. */
    function GetOr(default: T): T {
      match this
      case Some(v) => v
      case None => default
    }
  }

  /** A JSON body field that tells "left out" (`undefined`) apart from any
      value it may carry, `null` included. */
  datatype Presence<+T> = Absent | Present(value: T)
}
