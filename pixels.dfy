// Packed 32-bit colours as the renderer stores them: 0xAABBGGRR, so that in
// memory order byte 0 is red, byte 1 green, byte 2 blue and byte 3 alpha.

module Pixels {

  type Byte = bv8
  type Pixel = bv32

  /** Byte k of a packed colour, counted from the least significant end. */
  function Channel(c: Pixel, k: nat): (b: Byte)
    requires k < 4
  {
    if k == 0 then (c & 0xff) as Byte
    else if k == 1 then ((c >> 8) & 0xff) as Byte
    else if k == 2 then ((c >> 16) & 0xff) as Byte
    else ((c >> 24) & 0xff) as Byte
  }

  /** The colour whose four bytes, in memory order, are b0 b1 b2 b3. */
  function Pack(b0: Byte, b1: Byte, b2: Byte, b3: Byte): (c: Pixel)
    ensures Channel(c, 0) == b0 && Channel(c, 1) == b1
    ensures Channel(c, 2) == b2 && Channel(c, 3) == b3
  {
    (b0 as Pixel) | ((b1 as Pixel) << 8) | ((b2 as Pixel) << 16) | ((b3 as Pixel) << 24)
  }

  /** A colour is determined by its four bytes. */
  lemma PackChannels(c: Pixel)
    ensures Pack(Channel(c, 0), Channel(c, 1), Channel(c, 2), Channel(c, 3)) == c
  {
  }

  /** Two colours with the same four bytes are the same colour. */
  lemma ChannelsDetermine(c: Pixel, d: Pixel)
    requires forall k :: 0 <= k < 4 ==> Channel(c, k) == Channel(d, k)
    ensures c == d
  {
    assert Channel(c, 0) == Channel(d, 0) && Channel(c, 1) == Channel(d, 1);
    assert Channel(c, 2) == Channel(d, 2) && Channel(c, 3) == Channel(d, 3);
    PackChannels(c);
    PackChannels(d);
  }

  /** The colour c with byte k replaced by b, as a write through a byte pointer into c does. */
  function WithChannel(c: Pixel, k: nat, b: Byte): (r: Pixel)
    requires k < 4
    ensures Channel(r, 0) == if k == 0 then b else Channel(c, 0)
    ensures Channel(r, 1) == if k == 1 then b else Channel(c, 1)
    ensures Channel(r, 2) == if k == 2 then b else Channel(c, 2)
    ensures Channel(r, 3) == if k == 3 then b else Channel(c, 3)
  {
    if k == 0 then Pack(b, Channel(c, 1), Channel(c, 2), Channel(c, 3))
    else if k == 1 then Pack(Channel(c, 0), b, Channel(c, 2), Channel(c, 3))
    else if k == 2 then Pack(Channel(c, 0), Channel(c, 1), b, Channel(c, 3))
    else Pack(Channel(c, 0), Channel(c, 1), Channel(c, 2), b)
  }

  /** The unsigned value of a byte. */
  function ByteValue(b: Byte): (n: nat)
    ensures n < 256
  {
    b as nat
  }

  /** The colour with the given byte values, in memory order. */
  function FromValues(v0: nat, v1: nat, v2: nat, v3: nat): (c: Pixel)
    requires v0 < 256 && v1 < 256 && v2 < 256 && v3 < 256
    ensures ByteValue(Channel(c, 0)) == v0 && ByteValue(Channel(c, 1)) == v1
    ensures ByteValue(Channel(c, 2)) == v2 && ByteValue(Channel(c, 3)) == v3
  {
    ByteOfValue(v0);
    ByteOfValue(v1);
    ByteOfValue(v2);
    ByteOfValue(v3);
    Pack(v0 as Byte, v1 as Byte, v2 as Byte, v3 as Byte)
  }

  lemma ByteOfValue(v: nat)
    requires v < 256
    ensures ByteValue(v as Byte) == v
  {
  }

  /** The colour whose 32-bit unsigned value is n. */
  function FromUint(n: nat): (c: Pixel)
    requires n < 0x1_0000_0000
    ensures ByteValue(Channel(c, 0)) == n % 256
    ensures ByteValue(Channel(c, 1)) == (n / 0x100) % 256
    ensures ByteValue(Channel(c, 2)) == (n / 0x1_0000) % 256
    ensures ByteValue(Channel(c, 3)) == (n / 0x100_0000) % 256
  {
    FromValues(n % 256, (n / 0x100) % 256, (n / 0x1_0000) % 256, (n / 0x100_0000) % 256)
  }
}
