/** Types shared by every component of the model. */
module Common {
  /** One octet of a Go byte slice or string. */
  newtype byte = x: int | 0 <= x < 256

  type Bytes = seq<byte>

  datatype Option<+T> = None | Some(value: T)
}
