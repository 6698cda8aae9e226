/** The optional-value datatype used where the program distinguishes a nil
    value (or a failed lookup) from a present one. */
module Wrappers {

  datatype Option<+T> = None | Some(value: T)
}
