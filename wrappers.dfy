/** The optional value used wherever the program either produces a value or fails quietly. */
module Wrappers {

  datatype Option<T> = None | Some(value: T)
}
