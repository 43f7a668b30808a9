/** The absent-or-present value used for nullable columns and for "not found" results. */
module Wrappers {

  datatype Option<+T> = None | Some(value: T)
}
