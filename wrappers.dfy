/** The optional value used for things that may be absent: a file that does
    not exist yet, a session entry not yet created, a view with no data. */
module Wrappers {

  datatype Option<+T> = None | Some(value: T) {

    /** The carried value, or `default` when there is none. */
    function GetOr(default: T): T {
      match this
      case Some(v) => v
      case None => default
    }
  }
}
