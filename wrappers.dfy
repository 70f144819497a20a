/** Optional values, and the outcome of a Python call that may raise. */
module Wrappers {

  datatype Option<+T> = None | Some(value: T) {

    /** The value, or `default` when there is none (Python's `d.get(k, default)`). */
    function GetOr(default: T): (r: T)
      ensures Some? ==> r == value
      ensures None? ==> r == default
    {
      match this
      case Some(v) => v
      case None => default
    }
  }

  /** What a call does: it returns a value, or an exception escapes it. */
  datatype Outcome<+T> = Done(value: T) | Raised

  /** The state a pass reaches, and whether an exception escaped it there. */
  datatype Step<S> = Going(state: S) | Escaped(state: S)
}
