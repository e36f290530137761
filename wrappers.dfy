/** Optional values: the model's stand-in for `undefined`. */
module Wrappers {
  datatype Option<+T> = None | Some(value: T)
}
