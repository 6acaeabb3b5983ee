/** Optional values, for the places where the source either produces a value or raises. */
module Wrappers {

  datatype Option<+T> = None | Some(value: T)
}
