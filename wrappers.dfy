/** Small helper datatypes shared by the other modules. */
module Wrappers {

  /** An optional value. */
  datatype Option<T> = None | Some(value: T)
}
