/** The optional value used wherever the source falls back to a default:
    a file that could not be opened, a regular expression without a match,
    a string that does not convert to an integer. */
module Wrappers {

  datatype Option<+T> = None | Some(value: T) {

    /** The wrapped value, or `default` when there is none. */
    function GetOr(default: T): T
    {
      match this
      case Some(v) => v
      case None => default
    }
  }
}
