/** Python's `None`-or-value, as the usual Option datatype. */
module Wrappers {

  datatype Option<+T> = None | Some(value: T)
}
