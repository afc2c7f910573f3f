/** Bytes and byte strings. */
module Bytes {

  type byte = x: int | 0 <= x < 256

  type bytes = seq<byte>

  datatype Option<+T> = None | Some(value: T)

  /** The concatenation of a list of byte strings. */
  function Flatten(parts: seq<bytes>): bytes
    decreases |parts|
  {
    if parts == [] then [] else parts[0] + Flatten(parts[1..])
  }
}
