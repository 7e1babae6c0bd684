/** Optional values: Python's `None` against a present value. */
module Options {
  datatype Option<+T> = None | Some(value: T)
}
