/** Optional values, for Python's `None` results and nullable fields. */
module Options {

  datatype Option<T> = None | Some(value: T)
}
