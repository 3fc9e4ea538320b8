/** Optional values, for the places where the source uses a nil pointer. */
module Options {

  datatype Option<T> = None | Some(value: T)
}
