/** Optional values, standing for the `T | null` fields of the game state. */
module Wrappers {

  datatype Option<+T> = None | Some(value: T)
}
