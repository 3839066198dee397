/** Bytes and the four-byte little-endian length prefix that the buffer, the sink
    and the shard file all use. */
module Bytes {

  type byte = b: int | 0 <= b < 0x100

  const U32_LIMIT: nat := 0x1_0000_0000

  /** The four bytes of `v`, least significant first. */
  function EncodeU32(v: nat): (r: seq<byte>)
    requires v < U32_LIMIT
    ensures |r| == 4
  {
    [v % 0x100, v / 0x100 % 0x100, v / 0x1_0000 % 0x100, v / 0x100_0000 % 0x100]
  }

  function DecodeU32(b: seq<byte>): (v: nat)
    requires |b| == 4
    ensures v < U32_LIMIT
  {
    b[0] as int + b[1] as int * 0x100 + b[2] as int * 0x1_0000 + b[3] as int * 0x100_0000
  }

  lemma DecodeEncodeU32(v: nat)
    requires v < U32_LIMIT
    ensures DecodeU32(EncodeU32(v)) == v
  {
    var q1, q2, q3 := v / 0x100, v / 0x1_0000, v / 0x100_0000;
    assert q2 == q1 / 0x100 && q3 == q2 / 0x100;
    assert v == 0x100 * q1 + v % 0x100;
    assert q1 == 0x100 * q2 + q1 % 0x100;
    assert q2 == 0x100 * q3 + q2 % 0x100;
  }

  lemma EncodeDecodeU32(b: seq<byte>)
    requires |b| == 4
    ensures EncodeU32(DecodeU32(b)) == b
  {
    var b0, b1, b2, b3 := b[0] as int, b[1] as int, b[2] as int, b[3] as int;
    var v := DecodeU32(b);
    assert v == b0 + 0x100 * (b1 + 0x100 * (b2 + 0x100 * b3));
    assert v / 0x100 == b1 + 0x100 * (b2 + 0x100 * b3);
    assert v / 0x1_0000 == v / 0x100 / 0x100 == b2 + 0x100 * b3;
    assert v / 0x100_0000 == v / 0x1_0000 / 0x100 == b3;
  }

  /** `n` zero bytes: what a fresh or a reset region reads as. */
  function Zeros(n: nat): (r: seq<byte>)
    ensures |r| == n && forall i :: 0 <= i < n ==> r[i] == 0
  {
    seq(n, _ => 0)
  }
}
