/** A value that may be absent, such as what a pointer points to. */
module Optional {
  datatype Option<T> = None | Some(value: T)
}
