/** The optional value used wherever the source has `null`, `undefined` or "no result". */
module Wrappers {
  datatype Option<T> = None | Some(value: T)
}
