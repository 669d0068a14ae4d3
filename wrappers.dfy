/** The optional value used for the source's `undefined` fields and for
    results that JavaScript would report as NaN or Infinity. */
module Wrappers {

  datatype Option<+T> = None | Some(value: T) {

    /** The value, or `default` when there is none. */
    function GetOr(default: T): T {
      match this
      case Some(v) => v
      case None => default
    }
  }
}
