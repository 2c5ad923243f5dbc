// Values that may be missing: a nullable column, a map entry that is not there.
module Wrappers {
  datatype Option<+T> = None | Some(value: T)
}
