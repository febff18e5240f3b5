/** Optional values: Python's `Optional[str]` and its `None`. */
module Wrappers {

  datatype Option<+T> = None | Some(value: T)
}
