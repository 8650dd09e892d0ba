/** Optional values, standing for the JavaScript values that may be `null` or `undefined`. */
module Wrappers {

  datatype Option<+T> = None | Some(value: T)

  /** Feeds the value of `o`, if any, to `f` (optional chaining). */
  function Then<A, B>(o: Option<A>, f: A -> Option<B>): Option<B> {
    match o
    case Some(a) => f(a)
    case None => None
  }
}
