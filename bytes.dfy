/** Bytes: the eight-bit values the SPI bus carries, and the unsigned integers of the
    wire formats with their little-endian byte layout. */
module Bytes {

  /** A byte on the SPI bus, as a bit vector. */
  type byte = bv8

  /** Byte k (0 = least significant) of a 32-bit word. */
  function ByteOf(w: bv32, k: nat): byte
    requires k < 4
  {
    if k == 0 then (w & 0xFF) as byte
    else if k == 1 then ((w >> 8) & 0xFF) as byte
    else if k == 2 then ((w >> 16) & 0xFF) as byte
    else (w >> 24) as byte
  }

  /** The byte holding a small natural number, built by counting up (a direct
      conversion to bv8 is far more expensive for the solver). */
  function ToByte(n: int): (b: byte)
    requires 0 <= n < 256
    ensures b as int == n
  {
    if n == 0 then 0 else ToByte(n - 1) + 1
  }

  /** An octet of a byte stream, and a 32-bit unsigned field (u32 in the daemon, 'I' in
      the clients' struct layout), as integers. */
  type u8 = n: int | 0 <= n < 0x100
  type u32 = n: int | 0 <= n < 0x1_0000_0000

  /** Octet k (0 = least significant) of a 32-bit unsigned value. */
  function Octet(n: u32, k: nat): u8
    requires k < 4
  {
    if k == 0 then n % 0x100
    else if k == 1 then n / 0x100 % 0x100
    else if k == 2 then n / 0x1_0000 % 0x100
    else n / 0x100_0000
  }

  /** The four octets of a value, least significant first. */
  function LittleEndian(n: u32): (bs: seq<u8>)
    ensures |bs| == 4
  {
    [Octet(n, 0), Octet(n, 1), Octet(n, 2), Octet(n, 3)]
  }

  /** The value whose little-endian octets are b0, b1, b2, b3. */
  function FromLittleEndian(b0: u8, b1: u8, b2: u8, b3: u8): u32 {
    b0 + 0x100 * b1 + 0x1_0000 * b2 + 0x100_0000 * b3
  }

  /** Reading back the little-endian octets of a value gives the value. */
  lemma FromLittleEndianOfBytes(n: u32)
    ensures FromLittleEndian(Octet(n, 0), Octet(n, 1), Octet(n, 2), Octet(n, 3)) == n
  {
    assert n == Octet(n, 0) + 0x100 * (n / 0x100);
    assert n / 0x100 == Octet(n, 1) + 0x100 * (n / 0x1_0000);
    assert n / 0x1_0000 == Octet(n, 2) + 0x100 * Octet(n, 3);
  }

  /** The octets of a value assembled from four octets are those octets. */
  lemma BytesOfFromLittleEndian(b0: u8, b1: u8, b2: u8, b3: u8)
    ensures LittleEndian(FromLittleEndian(b0, b1, b2, b3)) == [b0, b1, b2, b3]
  {
    var n := FromLittleEndian(b0, b1, b2, b3);
    assert n % 0x100 == b0 && n / 0x100 == b1 + 0x100 * b2 + 0x1_0000 * b3;
    assert n / 0x1_0000 == b2 + 0x100 * b3;
    assert n / 0x100_0000 == b3;
  }
}
