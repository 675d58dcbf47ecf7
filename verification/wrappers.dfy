/** The optional value used for configuration entries, array lookups and
    campaign identifiers that may be absent. */
module Wrappers {

  datatype Option<+T> = None | Some(value: T)
}
