/** The optional value used for the source's nullable references. */
module Wrappers {
  datatype Option<T> = Nothing | Some(value: T)
}
