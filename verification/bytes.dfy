/** Bytes and the big-endian unsigned 32-bit integers of the wire headers (`struct.pack('>I')`,
    `int.to_bytes(4, "big")`). */
module Bytes {

  type byte = x: int | 0 <= x < 256
  type bytes = seq<byte>

  const TWO_32: int := 0x1_0000_0000

  predicate IsUint32(n: int) {
    0 <= n < TWO_32
  }

  /** The four big-endian bytes of `n`; `struct.pack` refuses values outside 0 .. 2^32 - 1. */
  function Uint32ToBE(n: int): (r: bytes)
    requires IsUint32(n)
    ensures |r| == 4
  {
    [n / 0x100_0000, (n / 0x1_0000) % 0x100, (n / 0x100) % 0x100, n % 0x100]
  }

  /** The value of four big-endian bytes. */
  function BEToUint32(b: bytes): (n: int)
    requires |b| == 4
    ensures IsUint32(n)
  {
    (b[0] as int) * 0x100_0000 + (b[1] as int) * 0x1_0000 + (b[2] as int) * 0x100 + (b[3] as int)
  }

  /** Decoding the encoding of a 32-bit value gives the value back. */
  lemma {:induction false} DecodeEncode(n: int)
    requires IsUint32(n)
    ensures BEToUint32(Uint32ToBE(n)) == n
  {
    var q1 := n / 0x100;
    var q2 := q1 / 0x100;
    var q3 := q2 / 0x100;
    assert q2 == n / 0x1_0000;
    assert q3 == n / 0x100_0000;
    assert n == q3 * 0x100_0000 + (q2 % 0x100) * 0x1_0000 + (q1 % 0x100) * 0x100 + n % 0x100;
  }

  /** Encoding the value of four bytes gives the same four bytes back. */
  lemma {:induction false} EncodeDecode(b: bytes)
    requires |b| == 4
    ensures Uint32ToBE(BEToUint32(b)) == b
  {
    var b0, b1, b2, b3 := b[0] as int, b[1] as int, b[2] as int, b[3] as int;
    var n := BEToUint32(b);
    var q1 := b0 * 0x1_0000 + b1 * 0x100 + b2;
    var q2 := b0 * 0x100 + b1;
    assert n == q1 * 0x100 + b3;
    assert n / 0x100 == q1 && n % 0x100 == b3;
    assert q1 == q2 * 0x100 + b2;
    assert q1 % 0x100 == b2;
    assert n == q2 * 0x1_0000 + (b2 * 0x100 + b3);
    assert n / 0x1_0000 == q2;
    assert q2 % 0x100 == b1;
    assert n == b0 * 0x100_0000 + (b1 * 0x1_0000 + b2 * 0x100 + b3);
    assert n / 0x100_0000 == b0;
  }

  /** Two headers carrying different values differ. */
  lemma EncodeInjective(m: int, n: int)
    requires IsUint32(m) && IsUint32(n) && m != n
    ensures Uint32ToBE(m) != Uint32ToBE(n)
  {
    DecodeEncode(m);
    DecodeEncode(n);
  }
}
