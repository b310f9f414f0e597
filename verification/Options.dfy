/** A value that may be missing: Go's nil pointers and zero times. */
module Options {
  datatype Option<+T> = None | Some(value: T)
}
