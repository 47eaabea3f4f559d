/** Values that may be absent: a missing Redis key, a null column, an empty reply. */
module Options {
  datatype Option<+T> = None | Some(value: T)
}
