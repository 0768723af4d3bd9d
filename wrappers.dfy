/** Optional values, standing for the nullable references and `int?` of the system. */
module Wrappers {

  datatype Option<+T> = None | Some(value: T)
}
