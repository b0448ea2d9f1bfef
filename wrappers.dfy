/** The optional value Swift writes as `T?`: `None` is `nil`. */
module Wrappers {

  datatype Option<+T> = None | Some(value: T) {

    /** Swift's `x ?? default`. */
    function GetOr(default: T): (r: T)
      ensures Some? ==> r == value
      ensures None? ==> r == default
    {
      match this
      case Some(v) => v
      case None => default
    }
  }
}
