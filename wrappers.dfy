/** The optional value used for every field that the request, the platform or a
    lookup service may leave out (a missing header, an absent JSON field). */
module Wrappers {

  datatype Option<+T> = None | Some(value: T) {

    /** The value, or `default` when there is none. */
    function GetOr(default: T): T {
      match this
      case Some(v) => v
      case None => default
    }
  }
}
