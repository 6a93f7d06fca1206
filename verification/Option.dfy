/** The optional value used for the source's `None` and SQL's NULL. */
module Options {
  datatype Option<+T> = None | Some(value: T)
}
