/** The optional-value datatype used throughout the model: a JavaScript value that
    may be `undefined` (an unset environment variable, a missing `file_name`, a
    regular expression that did not match). */
module Wrappers {

  datatype Option<+T> = None | Some(value: T) {

    /** The carried value, or `default` when there is none. */
    function GetOr(default: T): T {
      match this
      case Some(v) => v
      case None => default
    }
  }
}
