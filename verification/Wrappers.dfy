/** A value that may be absent: NULL columns, failed lookups and unset fields. */
module Wrappers {
  datatype Option<+T> = None | Some(value: T)
}
