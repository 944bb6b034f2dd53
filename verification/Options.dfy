/** An optional value: a missing property, an error path, an undefined result. */
module Options {
  datatype Option<+T> = None | Some(value: T)
}
