/** The usual optional value, for Python results that may be None. */
module Options {
  datatype Option<+T> = None | Some(value: T)
}
