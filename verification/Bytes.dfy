/** Bytes, the 32-bit integers made of them, and memcpy. */
module Bytes {

  type Byte = b: int | 0 <= b < 256

  const TWO32 := 0x1_0000_0000
  const INT_MAX := 0x7FFF_FFFF

  function Min(a: int, b: int): int {
    if a < b then a else b
  }

  function Le32(v: int): (s: seq<Byte>)
    ensures |s| == 4
  {
    var u := v % TWO32;
    [u % 256, u / 256 % 256, u / 65536 % 256, u / 16777216]
  }

  function FromLe32(s: seq<Byte>): int
    requires |s| == 4
  {
    var u: int := s[0] as int + 256 * s[1] as int + 65536 * s[2] as int + 16777216 * s[3] as int;
    if u > INT_MAX then u - TWO32 else u
  }

  lemma IntRoundTrip(v: int)
    requires -INT_MAX - 1 <= v <= INT_MAX
    ensures FromLe32(Le32(v)) == v
  {
    var u := v % TWO32;
    assert u / 65536 == u / 256 / 256 && u / 16777216 == u / 65536 / 256;
  }

  lemma ByteByByte(v: int)
    ensures v / 65536 == v / 256 / 256
    ensures v / 16777216 == v / 256 / 256 / 256
  {
    TwoBytes(v);
    OneMoreByte(v);
  }

  lemma TwoBytes(v: int)
    ensures v / 65536 == v / 256 / 256
  {
  }

  lemma OneMoreByte(v: int)
    ensures v / 16777216 == v / 65536 / 256
  {
  }

  /** The byte with the least weight comes first. */
  lemma LeastFirst(v: int)
    requires 0 <= v < TWO32
    ensures var s := Le32(v); v == s[0] as int + 0x100 * s[1] as int + 0x1_0000 * s[2] as int + 0x100_0000 * s[3] as int
  {
    hide Le32;
    LeBytes(v);
    Weighted(v, v / 256, v / 256 / 256, v / 256 / 256 / 256);
  }

  lemma LeBytes(v: int)
    requires 0 <= v < TWO32
    ensures var s := Le32(v);
            s[0] == v % 256 && s[1] == v / 256 % 256 && s[2] == v / 256 / 256 % 256 && s[3] == v / 256 / 256 / 256
  {
    assert v % TWO32 == v;
    ByteByByte(v);
  }

  lemma Weighted(v: int, a: int, b: int, c: int)
    requires a == v / 256 && b == a / 256 && c == b / 256
    ensures v == v % 256 + 0x100 * (a % 256) + 0x1_0000 * (b % 256) + 0x100_0000 * c
  {
    assert v == 256 * a + v % 256;
    assert a == 256 * b + a % 256;
    assert b == 256 * c + b % 256;
  }

  /** memcpy */
  method Copy(dst: array<Byte>, at: nat, src: seq<Byte>)
    requires at + |src| <= dst.Length
    modifies dst
    ensures dst[..at + |src|] == old(dst[..at]) + src
    ensures dst[at + |src|..] == old(dst[at + |src|..])
  {
    for i := 0 to |src|
      invariant forall j :: 0 <= j < at ==> dst[j] == old(dst[j])
      invariant forall j :: 0 <= j < i ==> dst[at + j] == src[j]
      invariant forall j :: at + i <= j < dst.Length ==> dst[j] == old(dst[j])
    {
      dst[at + i] := src[i];
    }
    assert dst[..at] == old(dst[..at]) && dst[at..at + |src|] == src;
    assert dst[..at + |src|] == dst[..at] + dst[at..at + |src|];
  }
}
