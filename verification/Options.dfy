/** An optional value: what the source writes as `None`, `null` or a missing column. */
module Options {
  datatype Option<+T> = None | Some(value: T)
}
