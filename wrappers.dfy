/** The optional-value wrapper used for session keys and query results. */
module Wrappers {

  datatype Option<+T> = None | Some(value: T)
}
