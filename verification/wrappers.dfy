/** Optional values: a bound a tweak may lack, or a calendar composition
    that may have no result. */
module Wrappers {

  datatype Option<T> = None | Some(value: T) {

    /** Swift's `??`: the held value, and `fallback` when nothing is held. */
    function Or(fallback: T): T
    {
      if Some? then value else fallback
    }
  }
}
