/** Optional values, used where the source signals failure with a return value. */
module Wrappers {
  datatype Option<+T> = None | Some(value: T)
}
