/** The optional value used wherever the source reads a field that may be
    missing (`undefined`/`null`) or an operation that may fail without
    raising (a JSON payload that does not parse). */
module Wrappers {

  datatype Option<+T> = None | Some(value: T) {

    /** The value, or `default` when there is none. */
    function GetOr(default: T): T {
      match this
      case Some(v) => v
      case None => default
    }
  }
}
