/** Optional values, used for the fields the source marks optional or nullable. */
module Wrappers {

  datatype Option<+T> = None | Some(value: T)
}
