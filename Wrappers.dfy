/** The optional-value type used for C#'s nullable values (`int?`, a null reference). */
module Wrappers {

  datatype Option<+T> = None | Some(value: T) {

    /** C#'s `??` operator: the value if present, else the default. */
    function GetOr(default: T): T {
      match this
      case Some(v) => v
      case None => default
    }
  }
}
