/** Optional values, used for the "not a number" distance of an invalid point. */
module Wrappers {
  datatype Option<+T> = None | Some(value: T)
}
