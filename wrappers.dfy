/** The optional-value type shared by every module of the model. */
module Wrappers {

  /** A value that may be missing: a key not in storage, an undefined field, a null column. */
  datatype Option<+T> = None | Some(value: T) {

    /** The carried value, or `default` when there is none (the `x || default` idiom). */
    function GetOr(default: T): (r: T)
      ensures Some? ==> r == value
      ensures None? ==> r == default
    {
      match this
      case Some(v) => v
      case None => default
    }
  }
}
