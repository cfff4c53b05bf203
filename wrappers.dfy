/** The Some/None datatype used in place of a C# null. */
module Wrappers {

  datatype Option<+T> = None | Some(value: T)
}
