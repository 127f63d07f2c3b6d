/** An optional value: a missing block, no matching rule, a range outside what the model assumes. */
module Wrappers {
  datatype Option<+T> = None | Some(value: T)
}
