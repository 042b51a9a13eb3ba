/** Optional values. */
module Wrappers {
  datatype Option<+T> = None | Some(value: T)

  /** A JavaScript field that may be missing (`undefined`), `null` or set. */
  datatype Nullish<+T> = Undefined | Null | Value(value: T) {
    /** The `??` operator. */
    function Or(other: Nullish<T>): Nullish<T> {
      if Value? then this else other
    }
  }
}
