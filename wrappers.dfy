/** The optional value used for fields a Redfish payload may leave out. */
module Wrappers {

  datatype Option<+T> = None | Some(value: T)
}
