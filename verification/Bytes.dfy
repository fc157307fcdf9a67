/** The scalar byte codecs (Cm.Ser/BinaryWriter.cpp, Cm.Ser/BinaryReader.cpp): fixed-width
    little-endian numbers and strings closed by a zero byte. */
module Bytes {

  type byte = x: int | 0 <= x < 256
  type uint32 = x: int | 0 <= x < 0x1_0000_0000
  type int32 = x: int | -0x8000_0000 <= x < 0x8000_0000

  function EncodeU32(n: uint32): (bs: seq<byte>)
    ensures |bs| == 4
  {
    var a: int := n / 256;
    var b := a / 256;
    [n % 256, a % 256, b % 256, b / 256]
  }

  function DecodeU32(bs: seq<byte>): uint32
    requires |bs| == 4
  {
    var a: int, b: int, c: int, d: int := bs[0], bs[1], bs[2], bs[3];
    a + 256 * b + 65536 * c + 16777216 * d
  }

  lemma DecodeEncodeU32(n: uint32)
    ensures DecodeU32(EncodeU32(n)) == n
  {
  }

  /** The lowest byte comes first. */
  lemma LowestByteFirst(n: uint32)
    ensures var bs := EncodeU32(n);
            && bs[0] == n % 0x100 && bs[1] == (n / 0x100) % 0x100
            && bs[2] == (n / 0x1_0000) % 0x100 && bs[3] == n / 0x100_0000
  {
  }

  /** Two's complement. */
  function ToU32(x: int32): uint32 {
    if x < 0 then x + 0x1_0000_0000 else x
  }

  function ToI32(n: uint32): int32 {
    if n >= 0x8000_0000 then n - 0x1_0000_0000 else n
  }

  /** A sum stored in 32 bits. */
  function Wrap32(x: int): int32 {
    ToI32(x % 0x1_0000_0000)
  }

  /** It is the sum, but for a multiple of 2^32. */
  lemma WrapIs(x: int)
    ensures (Wrap32(x) - x) % 0x1_0000_0000 == 0
    ensures -0x8000_0000 <= x < 0x8000_0000 ==> Wrap32(x) == x
  {
  }

  /** The bytes before the closing zero, if there is one. */
  function TakeText(bs: seq<byte>): (n: nat)
    ensures n <= |bs|
    ensures 0 !in bs[..n]
    ensures n < |bs| ==> bs[n] == 0
  {
    if bs == [] || bs[0] == 0 then 0
    else
      var n := 1 + TakeText(bs[1..]);
      assert bs[..n] == [bs[0]] + bs[1..][..n - 1];
      n
  }

  /** A written string is read back up to its first zero byte. */
  lemma {:induction false} TakeTextOf(s: seq<byte>, r: seq<byte>)
    ensures 0 !in s ==> TakeText(s + [0] + r) == |s|
    ensures 0 in s ==> TakeText(s + [0] + r) < |s|
  {
    if s != [] {
      assert (s + [0] + r)[1..] == s[1..] + [0] + r;
      TakeTextOf(s[1..], r);
    }
  }

  lemma TextRoundTrip(s: seq<byte>, r: seq<byte>)
    ensures var bs := s + [0] + r;
            && (bs[..TakeText(bs)] == s <==> 0 !in s)
            && (0 !in s ==> TakeText(bs) == |s| && bs[|s| + 1..] == r)
  {
    TakeTextOf(s, r);
  }

  lemma TakeTextStep(bs: seq<byte>)
    ensures TakeText(bs) == if bs == [] || bs[0] == 0 then 0 else 1 + TakeText(bs[1..])
  {
  }
}
