/** Optional values: `None` marks an operation that does not exist or is rejected when the program is compiled. */
module Wrappers {

  datatype Option<+T> = None | Some(value: T)

}
