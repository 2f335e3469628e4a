/** Optional values, shared by the modules whose operations can fail. */
module Wrappers {

  datatype Option<T> = None | Some(value: T)
}
