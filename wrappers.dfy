/** The optional value used wherever the source returns `null`, `undefined` or a missing entry. */
module Wrappers {

  datatype Option<+T> = None | Some(value: T)
}
