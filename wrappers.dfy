/** The optional-value datatype used wherever the source has `null`, `undefined` or a caught failure. */
module Wrappers {
  datatype Option<+T> = None | Some(value: T)
}
