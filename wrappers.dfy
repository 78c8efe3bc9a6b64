/** Option and Result values used for Python's None and for raised exceptions. */
module Wrappers {

  datatype Option<+T> = None | Some(value: T) {
    /** The value, or `default` for None (Python's `x or default` on an optional). */
    function GetOr(default: T): T {
      match this
      case Some(v) => v
      case None => default
    }

    /** The value as a sequence of at most one element. */
    function ToSeq(): (s: seq<T>)
      ensures |s| <= 1 && (Some? <==> |s| == 1) && (Some? ==> s[0] == value)
    {
      match this
      case Some(v) => [v]
      case None => []
    }
  }

  datatype Result<+R, +E> = Ok(value: R) | Err(error: E)
}
