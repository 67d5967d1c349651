/** Option and Result, the two sum types the GUI state machine uses for
    "maybe absent" values and for collaborator calls that can fail. */
module Wrappers {

  datatype Option<+T> = None | Some(value: T)

  datatype Result<+R, +E> = Success(value: R) | Failure(error: E)
}
