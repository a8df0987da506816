/** The optional-value datatype used wherever the modelled code can fail. */
module Wrappers {
  datatype Option<+T> = None | Some(value: T)
}
