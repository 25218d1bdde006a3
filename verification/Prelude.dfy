/** Types shared by all components. */
module Prelude {

  datatype Option<+T> = None | Some(value: T)

  datatype Result<+T> = Ok(value: T) | Error(message: string)

  type Byte = b: nat | b < 256
}
