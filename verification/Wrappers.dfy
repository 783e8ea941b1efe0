/** The one optional value type used throughout: a source `null` or `undefined` is None. */
module Wrappers {
  datatype Option<+T> = None | Some(value: T)
}
