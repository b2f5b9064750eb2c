/** The optional value used for absent storage keys, optional fields and
    operations that can throw. */
module Wrappers {
  datatype Option<+T> = None | Some(value: T)
}
