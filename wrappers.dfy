/** The optional value used for the raw date parts: `None` stands for Ruby's `nil`. */
module Wrappers {

  datatype Option<+T> = None | Some(value: T)
}
