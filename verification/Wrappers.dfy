/** Optional values: a JavaScript variable that may be undefined or null, a Java null, an array slot never assigned. */
module Wrappers {
  datatype Option<+T> = None | Some(value: T)
}
