/** The optional-value datatype used for values the source reads as `undefined` or `null`. */
module Wrappers {

  /** `None` stands for an absent value (`undefined`, `null`, a missing storage key). */
  datatype Option<+T> = None | Some(value: T) {

    /** Returns the value held in `Some`, or `default` when there is none. */
    function GetOr(default: T): (r: T)
      ensures Some? ==> r == value
      ensures None? ==> r == default
    {
      match this
      case Some(v) => v
      case None => default
    }
  }
}
