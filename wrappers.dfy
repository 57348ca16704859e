/** Optional values and success/failure results shared by the whole model. */
module Wrappers {

  /** A JavaScript value that may be `undefined` (or `null`, where the source treats both alike). */
  datatype Option<+T> = None | Some(value: T) {

    /** The value, or `default` when absent: JavaScript's `x ?? default`. */
    function GetOr(default: T): (r: T)
      ensures Some? ==> r == value
      ensures None? ==> r == default
    {
      match this
      case Some(v) => v
      case None => default
    }
  }

  /** JavaScript truthiness of an optional string (`!!x`): present and not empty. */
  predicate TruthyText(s: Option<string>)
  {
    s.Some? && s.value != []
  }

  /** What a JavaScript call throws here: reading a property of `undefined`. */
  datatype Fault = TypeError

  /** The outcome of a call that may throw. */
  datatype Result<+R, +E> = Success(value: R) | Failure(error: E)
}
