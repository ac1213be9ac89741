/** The optional value that stands for Swift's `T?` and Python's "value or nothing". */
module Wrappers {

  datatype Option<+T> = None | Some(value: T)
}
