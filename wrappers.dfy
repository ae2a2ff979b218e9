/** The optional-value datatype used for nullable references and not-yet-loaded assets. */
module Wrappers {

  datatype Option<+T> = None | Some(value: T)

}
