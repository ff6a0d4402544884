/** Small helper datatypes shared by the other modules. */
module Wrappers {

  /** An optional value: a record field the user has never typed into is `None`. */
  datatype Option<+T> = None | Some(value: T)
}
