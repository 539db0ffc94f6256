/** A value that may be absent: Python's `Optional[T]`, with `None` for absent. */
module Optional {
  datatype Option<+T> = None | Some(value: T)
}
