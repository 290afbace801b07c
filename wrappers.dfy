/** Python's `None`-or-value, used for the per-port previous laser reading
    and for a line that the parser rejects. */
module Wrappers {
  datatype Option<+T> = None | Some(value: T)
}
