/** Octets, Go's uint32 arithmetic and the little-endian 32-bit layout used by the RIFF header. */
module Bytes {

  /** An octet, as Go's `byte`. */
  type byte = x: int | 0 <= x < 256

  /** Go's `uint32`. */
  type u32 = x: int | 0 <= x < 0x1_0000_0000

  const TwoTo32: int := 0x1_0000_0000

  function Min(a: int, b: int): (m: int)
    ensures m <= a && m <= b && (m == a || m == b)
  {
    if a <= b then a else b
  }

  /** Go's `a - b` on `uint32`: the difference wraps around modulo 2^32. */
  function Sub32(a: u32, b: u32): (r: u32)
    ensures a >= b ==> r == a - b
    ensures a < b ==> r == a - b + TwoTo32
    ensures r == 0 <==> a == b
  {
    (a - b) % TwoTo32
  }

  /** The value of four octets read as a little-endian unsigned 32-bit integer. */
  function LeU32(b: seq<byte>): (v: u32)
    requires |b| == 4
  {
    b[0] as int + 256 * b[1] as int + 65536 * b[2] as int + 16777216 * b[3] as int
  }

  /** The four octets of `v`, least significant first. */
  function LeBytes(v: u32): (b: seq<byte>)
    ensures |b| == 4
  {
    [v % 256, (v / 256) % 256, (v / 65536) % 256, v / 16777216]
  }

  /** Encoding a value and reading it back yields the value. */
  lemma {:induction false} LeBytesThenU32(v: u32)
    ensures LeU32(LeBytes(v)) == v
  {
    var b := LeBytes(v);
    assert v == v % 256 + 256 * (v / 256);
    assert v / 256 == (v / 256) % 256 + 256 * (v / 65536);
    assert v / 65536 == (v / 65536) % 256 + 256 * (v / 16777216);
  }

  /** Reading four octets and encoding the value again yields the same four octets. */
  lemma {:induction false} LeU32ThenBytes(b: seq<byte>)
    requires |b| == 4
    ensures LeBytes(LeU32(b)) == b
  {
    var v: int := LeU32(b);
    var hi: int := b[1] as int + 256 * b[2] as int + 65536 * b[3] as int;
    assert v == b[0] as int + 256 * hi;
    assert v % 256 == b[0] && v / 256 == hi;
    var hi2: int := b[2] as int + 256 * b[3] as int;
    assert hi == b[1] as int + 256 * hi2;
    assert hi % 256 == b[1] && hi / 256 == hi2;
    assert v / 65536 == hi2 by {
      assert v == b[0] as int + 256 * b[1] as int + 65536 * hi2;
    }
    assert v / 16777216 == b[3] by {
      assert v == b[0] as int + 256 * b[1] as int + 65536 * b[2] as int + 16777216 * b[3] as int;
    }
    assert (v / 256) % 256 == b[1];
    assert (v / 65536) % 256 == b[2];
  }
}
