/** Optional values: `None` stands for Python's "absent" or "raised". */
module Wrappers {

  datatype Option<+T> = None | Some(value: T)
}
