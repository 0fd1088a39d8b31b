/** Optional values: an absent request field, a SQL NULL, a Python None. */
module Wrappers {
  datatype Option<+T> = None | Some(value: T)
}
