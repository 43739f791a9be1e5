/** The conventional optional-value datatype, used for parse results and the nullable interval handle. */
module Wrappers {
  datatype Option<+T> = None | Some(value: T)
}
