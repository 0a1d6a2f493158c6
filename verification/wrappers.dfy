/** The optional value used for every nullable pointer of the C interface. */
module Wrappers {

  /** `None` stands for a NULL pointer, `Some(v)` for a pointer to `v`. */
  datatype Option<+T> = None | Some(value: T)
}
