// What a lookup, an allocation or an absent part of a statement comes to: something or nothing.
module Wrappers {
  datatype Option<+T> = None | Some(value: T)
}
