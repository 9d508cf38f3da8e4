/** Python's `None` next to a value: an undefined register value, a missing
    binary mode, an unknown link status. */
module Options {
  datatype Option<+T> = None | Some(value: T)
}
