/** The optional-value type used where the system reads a setting that may be absent. */
module Wrappers {

  datatype Option<+T> = None | Some(value: T)
}
