/** Optional values: Django's nullable fields, dict.get and Python's None. */
module Wrappers {

  datatype Option<+T> = None | Some(value: T)
}
