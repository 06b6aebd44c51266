/** The optional value that the Go code expresses as a (value, error) pair. */
module Opt {
  datatype Option<+T> = None | Some(value: T)
}
