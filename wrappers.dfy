/** Optional values: a field that did not parse, a cursor that is not placed, an index that does not resolve. */
module Wrappers {
  datatype Option<+T> = None | Some(value: T)
}
