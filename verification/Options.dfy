/** A value or its absence: Go's nil pointers, empty results and error returns. */
module Options {
  datatype Option<+T> = None | Some(value: T)
}
