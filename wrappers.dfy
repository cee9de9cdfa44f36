/** Python's `None`-or-value, used wherever the program passes an optional value. */
module Wrappers {
  datatype Option<+T> = None | Some(value: T)
}
