/** The absent-or-present value used for JavaScript's `null` results and optional props. */
module Wrappers {

  datatype Option<+T> = None | Some(value: T)
}
