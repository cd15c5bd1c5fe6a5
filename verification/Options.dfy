module Options {
  /** A value, or what the driver returns as a null pointer. */
  datatype Option<+T> = None | Some(value: T)
}
