/** An optional value: the Go pattern `v, err := f()` where only success or failure matters. */
module Optional {
  datatype Option<+T> = None | Some(value: T)
}
