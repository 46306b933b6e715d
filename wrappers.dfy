/** The optional value used for the editor's dimension and its active entry. */
module Wrappers {

  datatype Option<+T> = None | Some(value: T)
}
