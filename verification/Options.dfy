/** A value that may be missing: the null pointers and -1 returns of the C code. */
module Options {
  datatype Option<T> = None | Some(value: T)
}
