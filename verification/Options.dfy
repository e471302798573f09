/** An optional value, for the source's nil-able pointers. */
module Options {
  datatype Option<T> = None | Some(value: T)
}
