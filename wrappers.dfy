/** The optional value used for cells that pandas reads as NaN or NaT. */
module Wrappers {

  datatype Option<+T> = None | Some(value: T)
}
