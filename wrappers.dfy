/** Optional values (a nullable column, an absent JSON field, a missing cookie). */
module Wrappers {

  datatype Option<+T> = None | Some(value: T)

}
