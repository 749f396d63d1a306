/** Results that may be missing: the NULL a C function returns on failure. */
module Options {
  datatype Option<+T> = None | Some(value: T)
}
