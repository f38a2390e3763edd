/** The optional value shared by every module of the model. */
module Wrappers {

  /** A value or nothing; stands for a C pointer that may be NULL, or an outcome C leaves undefined. */
  datatype Option<+T> = None | Some(value: T)
}
