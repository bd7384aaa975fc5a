/** Optional values, for the nullable and optional fields of the app. */
module Wrappers {
  datatype Option<+T> = None | Some(value: T)
}
