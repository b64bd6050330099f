/** The CRC-32 of zlib (`zlib.crc32`), as given by the reference code in section 8 of RFC 1952:
    reflected polynomial 0xEDB88320, register preset to all ones, result complemented. */
module Crc32 {
  import opened Bytes

  const POLY: bv32 := 0xEDB8_8320
  const ALL_ONES: bv32 := 0xFFFF_FFFF

  /** One bit step of the shift register. */
  function Shift(c: bv32): bv32 {
    if c & 1 == 1 then POLY ^ (c >> 1) else c >> 1
  }

  /** Eight bit steps: one byte's worth. */
  function Shift8(c: bv32): bv32 {
    Shift(Shift(Shift(Shift(Shift(Shift(Shift(Shift(c))))))))
  }

  /** Feeding one byte to the register, low bit first. */
  function UpdateByte(c: bv32, b: byte): bv32 {
    Shift8(c ^ (b as bv32))
  }

  /** The register after feeding `data`. */
  function Update(c: bv32, data: bytes): bv32
    decreases |data|
  {
    if |data| == 0 then c else Update(UpdateByte(c, data[0]), data[1..])
  }

  /** `zlib.crc32(data) & 0xFFFFFFFF`. */
  function Crc(data: bytes): (r: int)
    ensures IsUint32(r)
  {
    (Update(ALL_ONES, data) ^ ALL_ONES) as int
  }
}
