/** Types shared by the byte-level models. */
module Basics {

  type Byte = b: int | 0 <= b < 256
  type Bytes = seq<Byte>

  datatype Option<T> = None | Some(value: T)
}
