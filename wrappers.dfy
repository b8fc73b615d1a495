/** Optional values: a lookup that may find nothing or may fail. */
module Wrappers {

  datatype Option<+T> = None | Some(value: T)
}
