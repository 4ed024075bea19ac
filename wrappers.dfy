/** Optional values, standing for Python's None and JavaScript's null. */
module Wrappers {

  datatype Option<+T> = None | Some(value: T)
}
