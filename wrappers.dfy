/** The conventional optional-value datatype, used for the optional page range
    and for parsing a destination name back into its parts. */
module Wrappers {

  datatype Option<+T> = None | Some(value: T)
}
