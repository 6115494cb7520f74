/** Optional values: a nullable SQL column holds `None` for NULL. */
module Wrappers {

  datatype Option<+T> = None | Some(value: T)
}
