/** Bytes and little-endian numbers. */
module Bytes {
  type byte = x: int | 0 <= x < 256

  function U16(s: seq<byte>, at: nat): (w: int)
    requires at + 2 <= |s|
    ensures 0 <= w < 0x1_0000
  {
    s[at] as int + 0x100 * (s[at + 1] as int)
  }

  function U32(s: seq<byte>, at: nat): (w: int)
    requires at + 4 <= |s|
    ensures 0 <= w < 0x1_0000_0000
  {
    U16(s, at) + 0x1_0000 * U16(s, at + 2)
  }
}
