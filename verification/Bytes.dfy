/** Byte strings and the 32-bit big-endian numbers both wire formats use. */
module Bytes {
  type byte = x: int | 0 <= x < 256

  const TWO_32: int := 0x1_0000_0000

  function PutUint32(n: int): (r: seq<byte>)
    requires 0 <= n < TWO_32
    ensures |r| == 4
  {
    [n / 0x100_0000, n / 0x1_0000 % 256, n / 256 % 256, n % 256]
  }

  /** The number in the four bytes at `at`. */
  function Uint32(b: seq<byte>, at: nat): (n: int)
    requires at + 4 <= |b|
    ensures 0 <= n < TWO_32
  {
    b[at] as int * 0x100_0000 + b[at + 1] as int * 0x1_0000 + b[at + 2] as int * 256 + b[at + 3] as int
  }

  /** The most significant byte comes first. */
  lemma BigEndian()
    ensures PutUint32(0x0102_0304) == [1, 2, 3, 4]
  {
  }

  lemma Uint32OfPut(before: seq<byte>, n: int, after: seq<byte>)
    requires 0 <= n < TWO_32
    ensures Uint32(before + (PutUint32(n) + after), |before|) == n
  {
    var b, at, digits := before + (PutUint32(n) + after), |before|, PutUint32(n);
    assert b[at] == digits[0] && b[at + 1] == digits[1];
    assert b[at + 2] == digits[2] && b[at + 3] == digits[3];
    Recombined(n);
  }

  lemma Recombined(n: int)
    requires 0 <= n < TWO_32
    ensures n / 0x100_0000 * 0x100_0000 + n / 0x1_0000 % 256 * 0x1_0000 + n / 256 % 256 * 256 + n % 256 == n
  {
    assert n / 0x100_0000 == n / 0x1_0000 / 256;
    assert n / 0x1_0000 == n / 256 / 256;
  }

  lemma PutOfUint32(b: seq<byte>, at: nat)
    requires at + 4 <= |b|
    ensures PutUint32(Uint32(b, at)) == b[at..at + 4]
  {
    Quotients(b[at], b[at + 1], b[at + 2], b[at + 3]);
    assert b[at..at + 4] == [b[at], b[at + 1], b[at + 2], b[at + 3]];
  }

  lemma Quotients(b0: int, b1: int, b2: int, b3: int)
    requires 0 <= b0 < 256 && 0 <= b1 < 256 && 0 <= b2 < 256 && 0 <= b3 < 256
    ensures var n := b0 * 0x100_0000 + b1 * 0x1_0000 + b2 * 256 + b3;
      && n / 256 == b0 * 0x1_0000 + b1 * 256 + b2
      && n / 0x1_0000 == b0 * 256 + b1
      && n / 0x100_0000 == b0
  {
  }

  /** The bytes of an ASCII string. */
  function Ascii(s: string): (r: seq<byte>)
    ensures |r| == |s|
  {
    seq(|s|, i requires 0 <= i < |s| => s[i] as int % 256)
  }

  lemma AsciiByValue()
    ensures Ascii("PACK") == [0x50, 0x41, 0x43, 0x4b]
  {
  }
}
