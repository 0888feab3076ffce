/** Small shared value types. */
module Basics {

  /** An optional value: None stands for a null pointer, a missing route or a missing reply. */
  datatype Option<+T> = None | Some(value: T) {

    /** Returns the value in Some, or the default when None. */
    function GetOr(default: T): T
    {
      match this
      case Some(v) => v
      case None => default
    }
  }
}
