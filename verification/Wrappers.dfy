/** The absent-or-present result that the Python code spells as `T | None`. */
module Wrappers {
  datatype Option<+T> = None | Some(value: T)
}
