/** A value that may be missing, as a JavaScript `string | null` is. */
module Wrappers {
  datatype Option<+T> = None | Some(value: T)
}
