/** The `std::optional`-style result of the searches, shared by the whole model. */
module Wrappers {

  /** An optional value, as `std::optional` in the modelled code. */
  datatype Option<+T> = None | Some(value: T)
}
