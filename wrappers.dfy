/** The usual optional-value datatype, used for "no such enemy" and "still playing". */
module Wrappers {
  datatype Option<T> = None | Some(value: T)
}
