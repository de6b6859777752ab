/** Optional values: the nullable globals and the lookups of the game. */
module Wrappers {
  datatype Option<+T> = None | Some(value: T)
}
