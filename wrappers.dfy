/** The optional value used for a drag event's drop target and for parsing status names. */
module Wrappers {

  datatype Option<+T> = None | Some(value: T)

}
