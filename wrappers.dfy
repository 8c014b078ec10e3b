/** Optional values, used for attributes that a Python object only gains when some branch assigns them. */
module Wrappers {
  datatype Option<+T> = None | Some(value: T)
}
