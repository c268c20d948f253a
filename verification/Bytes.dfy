/** Bytes, and sequences of them. */
module Bytes {
  type Byte = b: int | 0 <= b < 256

  function Flatten(chunks: seq<seq<Byte>>): seq<Byte> {
    if chunks == [] then [] else chunks[0] + Flatten(chunks[1..])
  }
}
