/** Bytes, and byte streams that arrive in pieces. */
module Bytes {

  type Byte = x: int | 0 <= x < 256

  /** All pieces together. */
  function Flat(pieces: seq<seq<Byte>>): seq<Byte> {
    if pieces == [] then [] else pieces[0] + Flat(pieces[1..])
  }
}
