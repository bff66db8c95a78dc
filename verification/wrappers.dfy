/** The optional value the site's lookups produce: a DOM element that may be
    missing, a stored preference that may be absent, an array slot that may be
    `undefined`. */
module Wrappers {

  datatype Option<+T> = None | Some(value: T) {

    /** Returns the encapsulated value, or `default` when there is none
        (the `x || fallback` and `x ?? fallback` idiom). */
    function GetOr(default: T): (r: T)
      ensures Some? ==> r == value
      ensures None? ==> r == default
    {
      match this
      case Some(v) => v
      case None => default
    }
  }
}
