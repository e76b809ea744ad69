/** The optional value used for a nullable value in the pages and the hook. */
module Wrappers {

  datatype Option<+T> = None | Some(value: T)
}
