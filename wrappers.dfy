/** Optional values: the component's `T | null` fields. */
module Wrappers {

  /** `None` plays the part of JavaScript's `null`. */
  datatype Option<+T> = None | Some(value: T)
}
