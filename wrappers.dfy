/** The optional values the model uses for DOM lookups that may find nothing. */
module Wrappers {

  datatype Option<+T> = None | Some(value: T)
}
