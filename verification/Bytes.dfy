/** Bytes, 32-bit words and their big-endian form, as every hop of the SpaceWire path uses them. */
module Bytes {

  type byte = b: int | 0 <= b < 0x100

  type uint32 = v: int | 0 <= v < 0x1_0000_0000

  function EncodeBE32(v: uint32): (s: seq<byte>)
    ensures |s| == 4
  {
    [v / 0x100_0000, v / 0x1_0000 % 0x100, v / 0x100 % 0x100, v % 0x100]
  }

  function DecodeBE32(s: seq<byte>): (v: uint32)
    requires |s| == 4
  {
    var (b0: int, b1: int, b2: int, b3: int) := (s[0], s[1], s[2], s[3]);
    b0 * 0x100_0000 + b1 * 0x1_0000 + b2 * 0x100 + b3
  }

  lemma DecodeEncodeBE32(v: uint32)
    ensures DecodeBE32(EncodeBE32(v)) == v
  {
    var q1, q2 := v / 0x100, v / 0x1_0000;
    assert q2 == q1 / 0x100 && v / 0x100_0000 == q2 / 0x100;
  }

  lemma EncodeDecodeBE32(s: seq<byte>)
    requires |s| == 4
    ensures EncodeBE32(DecodeBE32(s)) == s
  {
    var v := DecodeBE32(s);
    var q1, q2 := v / 0x100, v / 0x1_0000;
    var b0: int, b1: int, b2: int, b3: int := s[0], s[1], s[2], s[3];
    assert q1 == b0 * 0x1_0000 + b1 * 0x100 + b2;
    assert q2 == b0 * 0x100 + b1;
    assert v / 0x100_0000 == b0;
  }
}
