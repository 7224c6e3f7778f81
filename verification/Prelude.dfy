/** Types shared by every part of the model. */
module Prelude {

  datatype Option<+T> = None | Some(value: T) {
    function GetOr(default: T): T {
      match this
      case Some(v) => v
      case None => default
    }
  }

  datatype Result<+T> = Ok(value: T) | Err(reason: string)

  newtype byte = x: int | 0 <= x < 256

  type Bytes = seq<byte>
}
