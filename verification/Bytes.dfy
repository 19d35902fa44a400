/** Bytes and big-endian integers. */
module Bytes {
  type Byte = n: int | 0 <= n < 0x100

  function U16(hi: Byte, lo: Byte): (n: nat)
    ensures n < 0x1_0000
  {
    0x100 * hi + lo
  }

  function U32(bytes: seq<Byte>): (n: nat)
    requires |bytes| == 4
    ensures n < 0x1_0000_0000
  {
    0x1_0000 * U16(bytes[0], bytes[1]) + U16(bytes[2], bytes[3])
  }

  function U16Bytes(n: nat): (bytes: seq<Byte>)
    requires n < 0x1_0000
    ensures |bytes| == 2 && U16(bytes[0], bytes[1]) == n
  {
    [n / 0x100, n % 0x100]
  }

  function U32Bytes(n: nat): (bytes: seq<Byte>)
    requires n < 0x1_0000_0000
    ensures |bytes| == 4 && U32(bytes) == n
  {
    U16Bytes(n / 0x1_0000) + U16Bytes(n % 0x1_0000)
  }

  /** The first byte is the highest, and four bytes are one integer only. */
  lemma BytesAreBigEndian(bytes: seq<Byte>)
    requires |bytes| == 4
    ensures var a: nat, b: nat, c: nat, d: nat := bytes[0], bytes[1], bytes[2], bytes[3];
            && U16(bytes[0], bytes[1]) == 256 * a + b
            && U32(bytes) == 16_777_216 * a + 65_536 * b + 256 * c + d
    ensures U32Bytes(U32(bytes)) == bytes
  {
    var hi, lo := U16(bytes[0], bytes[1]), U16(bytes[2], bytes[3]);
    assert U32(bytes) / 0x1_0000 == hi && U32(bytes) % 0x1_0000 == lo;
    assert hi / 0x100 == bytes[0] && hi % 0x100 == bytes[1] && lo / 0x100 == bytes[2] && lo % 0x100 == bytes[3];
  }
}
