/** Optional values: a database read that may find no row, a parse that may yield NaN. */
module Wrappers {
  datatype Option<+T> = None | Some(value: T)
}
