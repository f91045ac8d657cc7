/** Result and option types shared by every module. */
module Basics {

  datatype Option<+T> = None | Some(value: T)

  datatype Result<+T, +E> = Ok(value: T) | Err(error: E)

  /** The error every capability handler reports (a code and a message). */
  datatype CapabilityError = CapabilityError(code: string, message: string)
}
