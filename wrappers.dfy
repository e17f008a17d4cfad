/** Optional values, used for "not found" and for "no error yet". */
module Wrappers {
  datatype Option<+T> = None | Some(value: T)
}
