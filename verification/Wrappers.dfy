/** A value that may be missing: a miss of a lookup, Python's None, a read past the end of a file. */
module Wrappers {
  datatype Option<+T> = None | Some(value: T)
}
