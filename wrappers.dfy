/** An optional value: a file that may not have opened, a border that may be
    absent, an event pointer that may be null. */
module Wrappers {
  datatype Option<T> = None | Some(value: T)
}
