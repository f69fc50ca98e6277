/** Optional values, used for a SQL row that may be absent and a parse that may fail. */
module Wrappers {
  datatype Option<+T> = None | Some(value: T)
}
