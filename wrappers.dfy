/** Optional values, standing in for a null pointer or an absent accessor. */
module Wrappers {

  datatype Option<+T> = None | Some(value: T)

}
