/** Optional values: Python's `Optional[T]`, where `None` is absent. */
module Wrappers {

  datatype Option<T> = None | Some(value: T)
}
