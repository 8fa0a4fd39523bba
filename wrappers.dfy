/** Optional values, standing for Python's `None` and for a parse that raised. */
module Wrappers {

  datatype Option<+T> = None | Some(value: T)
}
