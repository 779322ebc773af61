/** Optional values, shared by the score server and the game model. */
module Wrappers {

  /** `None` where the source has a missing file, a missing key or no result. */
  datatype Option<+T> = None | Some(value: T)
}
