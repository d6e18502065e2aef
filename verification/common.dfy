/** Optional values, used for Python's `None` results and absent parameters. */
module Common {
  datatype Option<T> = None | Some(value: T)
}
