/** The optional value used wherever the modelled programs use `null`, `undefined` or a missing key. */
module Wrappers {
  datatype Option<+T> = None | Some(value: T)
}
