/** An optional value, for the program's `None`. */
module Basics {
  datatype Option<+T> = None | Some(value: T)
}
