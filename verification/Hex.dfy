/** Hexadecimal text, as Python's hex() and format specs write it and parseInt and int(s, 16) read it. */
module Hex {
  import opened Bytes

  predicate IsHexDigit(c: char) {
    '0' <= c <= '9' || 'a' <= c <= 'f' || 'A' <= c <= 'F'
  }

  function DigitValue(c: char): (d: nat)
    requires IsHexDigit(c)
    ensures d < 16
  {
    if '0' <= c <= '9' then c as int - '0' as int
    else if 'a' <= c <= 'f' then c as int - 'a' as int + 10
    else c as int - 'A' as int + 10
  }

  function Digit(d: nat): (c: char)
    requires d < 16
    ensures IsHexDigit(c) && DigitValue(c) == d
    ensures '0' <= c <= '9' || 'a' <= c <= 'f'
  {
    if d < 10 then '0' + d as char else 'a' + (d - 10) as char
  }

  lemma DigitsAre(d: nat)
    requires d < 16
    ensures Digit(d) == "0123456789abcdef"[d]
    ensures DigitValue("0123456789abcdef"[d]) == DigitValue("0123456789ABCDEF"[d]) == d
  {
  }

  predicate IsHex(s: string) {
    forall i | 0 <= i < |s| :: IsHexDigit(s[i])
  }

  function Value(s: string): nat
    requires IsHex(s)
  {
    if s == "" then 0 else 16 * Value(s[..|s| - 1]) + DigitValue(s[|s| - 1])
  }

  function Pow16(n: nat): (p: nat)
    ensures p > 0
  {
    if n == 0 then 1 else 16 * Pow16(n - 1)
  }

  /** The n low digits of v, zero padded and in lower case. */
  function Padded(v: nat, n: nat): (s: string)
    ensures |s| == n && IsHex(s)
    ensures forall i | 0 <= i < n :: '0' <= s[i] <= '9' || 'a' <= s[i] <= 'f'
  {
    if n == 0 then "" else Padded(v / 16, n - 1) + [Digit(v % 16)]
  }

  lemma {:induction false} ValueOfPadded(v: nat, n: nat)
    requires v < Pow16(n)
    ensures Value(Padded(v, n)) == v
  {
    if n > 0 {
      ValueOfPadded(v / 16, n - 1);
      assert Padded(v, n)[..n - 1] == Padded(v / 16, n - 1);
    }
  }

  lemma ValueAppend(a: string, c: char)
    requires IsHex(a) && IsHexDigit(c)
    ensures Value(a + [c]) == 16 * Value(a) + DigitValue(c)
  {
    assert (a + [c])[..|a|] == a;
  }

  /** bytes.hex(): two digits a byte. */
  function OfBytes(bs: seq<byte>): (s: string)
    ensures |s| == 2 * |bs| && IsHex(s)
  {
    if bs == [] then "" else OfBytes(bs[..|bs| - 1]) + Padded(bs[|bs| - 1], 2)
  }

  lemma {:induction false} OfBytesConcat(a: seq<byte>, b: seq<byte>)
    ensures OfBytes(a + b) == OfBytes(a) + OfBytes(b)
    decreases |b|
  {
    if b == [] {
      assert a + b == a;
    } else {
      assert (a + b)[..|a + b| - 1] == a + b[..|b| - 1];
      OfBytesConcat(a, b[..|b| - 1]);
    }
  }

  lemma ValueOneMoreByte(a: string, b: byte)
    requires IsHex(a)
    ensures Value(a + Padded(b, 2)) == 0x100 * Value(a) + b
  {
    assert b / 16 < 16 && b / 16 % 16 == b / 16;
    var hi, lo := Digit(b / 16), Digit(b % 16);
    assert Padded(b, 2) == Padded(b / 16, 1) + [lo] && Padded(b / 16, 1) == Padded(0, 0) + [hi];
    assert a + Padded(b, 2) == (a + [hi]) + [lo];
    ValueAppend(a, hi);
    ValueAppend(a + [hi], lo);
  }

  /** Eight digits are a big-endian word. */
  lemma ValueOfWord(bs: seq<byte>)
    requires |bs| == 4
    ensures Value(OfBytes(bs)) == DecodeBE32(bs)
  {
    assert bs[..3] + [bs[3]] == bs;
    assert bs[..3][..2] == bs[..2] && bs[..2][..1] == bs[..1] && bs[..1][..0] == [];
    ValueOneMoreByte("", bs[0]);
    assert OfBytes(bs[..1]) == "" + Padded(bs[0], 2);
    ValueOneMoreByte(OfBytes(bs[..1]), bs[1]);
    ValueOneMoreByte(OfBytes(bs[..2]), bs[2]);
    ValueOneMoreByte(OfBytes(bs[..3]), bs[3]);
  }
}
