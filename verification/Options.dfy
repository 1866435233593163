/** The stock optional value, used for Go's `(value, ok)` pairs and nil errors. */
module Options {
  datatype Option<+T> = None | Some(value: T)
}
