/** Optional values: `None` stands for a missing entry (pandas NaN, an unset stored time). */
module Wrappers {

  datatype Option<+T> = None | Some(value: T)
}
