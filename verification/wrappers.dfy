/** Optional values: Python's "value or None" where the model needs to tell the two apart. */
module Wrappers {

  datatype Option<+T> = None | Some(value: T)
}
