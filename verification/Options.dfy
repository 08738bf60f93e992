/** Optional values, as the source's `undefined` and `null` results. */
module Options {
  datatype Option<+T> = None | Some(value: T)
}
