/** Go's byte, for the code that slices strings and bodies by byte. */
module Bytes {

  newtype byte = b: int | 0 <= b < 0x100

  function Min(a: nat, b: nat): nat
  {
    if a <= b then a else b
  }

}
