/** Octets and the byte strings exchanged between client, server and database. */
module Bytes {
  newtype byte = x: int | 0 <= x < 256

  type Text = seq<byte>

  datatype Option<+T> = None | Some(value: T)
}
