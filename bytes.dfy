/** Fixed-width unsigned integers and their big-endian (network order) byte images.
    `htons`/`htonl` are modelled as "write these bytes in network order" and
    `ntohs` as "read these network-order bytes", independently of the host. */
module Bytes {

  type uint8 = x: int | 0 <= x < 0x100
  type uint16 = x: int | 0 <= x < 0x1_0000
  type uint32 = x: int | 0 <= x < 0x1_0000_0000

  /** The two bytes of `v`, most significant first. */
  function Be16(v: uint16): (r: seq<uint8>)
    ensures |r| == 2 && r[0] as int * 0x100 + r[1] == v
  {
    [v / 0x100, v % 0x100]
  }

  /** The value of the two network-order bytes of `b` at offset `at`. */
  function ReadBe16(b: seq<uint8>, at: nat): (v: uint16)
    requires at + 2 <= |b|
    ensures Be16(v) == b[at..at + 2]
  {
    b[at] as int * 0x100 + b[at + 1]
  }

  /** The four bytes of `v`, most significant first. */
  function Be32(v: uint32): (r: seq<uint8>)
    ensures |r| == 4
    ensures r[0] as int * 0x100_0000 + r[1] as int * 0x1_0000 + r[2] as int * 0x100 + r[3] == v
  {
    Be16(v / 0x1_0000) + Be16(v % 0x1_0000)
  }

  /** The value of the four network-order bytes of `b` at offset `at`. */
  function ReadBe32(b: seq<uint8>, at: nat): (v: uint32)
    requires at + 4 <= |b|
    ensures Be32(v) == b[at..at + 4]
  {
    var hi, lo := ReadBe16(b, at), ReadBe16(b, at + 2);
    var v: int := hi as int * 0x1_0000 + lo;
    assert v / 0x1_0000 == hi && v % 0x1_0000 == lo;
    assert b[at..at + 4] == b[at..at + 2] + b[at + 2..at + 4];
    v
  }

  /** The first byte of a 32-bit word on the wire is its most significant byte. */
  lemma Be32FirstByte(v: uint32)
    ensures Be32(v)[0] == v / 0x100_0000
  {
  }

  /** Reading back what was written gives the original value. */
  lemma ReadBe32Be32(v: uint32)
    ensures ReadBe32(Be32(v), 0) == v
  {
  }
}
