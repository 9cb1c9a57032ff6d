/** The optional value used wherever the library reads a field that may be
    missing, or a parse that may fail. */
module Wrappers {

  datatype Option<+T> = None | Some(value: T) {

    /** The value, or the given default when there is none. */
    function GetOr(default: T): T
    {
      match this
      case Some(v) => v
      case None => default
    }
  }
}
