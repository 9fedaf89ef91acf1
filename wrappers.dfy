/** Failure-carrying results shared by the modules of this model. */
module Wrappers {

  datatype Option<+T> = None | Some(value: T)

  /** The exceptions the modelled Python code raises and its callers can observe. */
  datatype Error =
    | KeyError       // a required key is missing from a catalog record
    | ValueError     // a range step of zero, or a wait of less than one second

  datatype Result<+T> = Success(value: T) | Failure(error: Error)
}
