/** Optional values, for the source's null pointers and absent map entries. */
module Wrappers {
  datatype Option<+T> = None | Some(value: T)
}
