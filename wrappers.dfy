/** Optional values: the model's stand-in for `T | null` and for a lookup that may find nothing. */
module Wrappers {

  datatype Option<+T> = None | Some(value: T)
}
