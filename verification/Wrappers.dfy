/** The optional value the source spells `None` or a value. */
module Wrappers {
  datatype Option<+T> = None | Some(value: T)
}
