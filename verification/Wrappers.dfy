/** Optional values, used wherever the program has a nil pointer or an error return. */
module Wrappers {
  datatype Option<+T> = None | Some(value: T)
}
