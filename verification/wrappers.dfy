/** The optional-value datatype used for a parse that can fail and for JavaScript `undefined`. */
module Wrappers {

  datatype Option<+T> = None | Some(value: T)
}
