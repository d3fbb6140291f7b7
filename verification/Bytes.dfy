/** Bytes, little-endian words and ASCII text. */
module Bytes {
  type Byte = b: int | 0 <= b < 256

  const WORD: nat := 0x1_0000_0000

  /** binary.LittleEndian.Uint32 */
  function Le32(b: seq<Byte>, pos: nat): (n: nat)
    requires pos + 4 <= |b|
    ensures n < WORD
  {
    var b0: int, b1: int, b2: int, b3: int := b[pos], b[pos + 1], b[pos + 2], b[pos + 3];
    b0 + 0x100 * b1 + 0x1_0000 * b2 + 0x100_0000 * b3
  }

  /** binary.LittleEndian.PutUint32 of uint32(n) */
  function Put32(n: nat): (b: seq<Byte>)
    ensures |b| == 4
  {
    [n % 0x100, n / 0x100 % 0x100, n / 0x1_0000 % 0x100, n / 0x100_0000 % 0x100]
  }

  lemma PutGet(n: nat, before: seq<Byte>, after: seq<Byte>)
    requires n < WORD
    ensures Le32(before + Put32(n) + after, |before|) == n
  {
    var b := before + Put32(n) + after;
    assert forall i :: 0 <= i < 4 ==> b[|before| + i] == Put32(n)[i];
    Digits(n);
  }

  lemma Digits(n: nat)
    requires n < WORD
    ensures n % 0x100 + 0x100 * (n / 0x100 % 0x100) + 0x1_0000 * (n / 0x1_0000 % 0x100)
      + 0x100_0000 * (n / 0x100_0000 % 0x100) == n
  {
    var a := n / 0x100;
    var b := a / 0x100;
    assert n / 0x1_0000 == b;
    assert n / 0x100_0000 == b / 0x100;
  }

  /** A text of byte-sized characters. */
  function Ascii(s: string): (b: seq<Byte>)
    ensures |b| == |s|
  {
    seq(|s|, (i: int) requires 0 <= i < |s| => (s[i] as int) % 256)
  }
}
