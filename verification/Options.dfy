/** The Some/None datatype that stands for a reference which may be NULL. */
module Options {
  datatype Option<+T> = None | Some(value: T)
}
