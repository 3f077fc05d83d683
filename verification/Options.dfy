/** An absent pointer, or an optional argument left out. */
module Options {
  datatype Option<T> = None | Some(value: T)
}
