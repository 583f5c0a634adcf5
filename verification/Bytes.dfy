/** Bytes and big-endian numbers. */
module Bytes {

  type Byte = b: nat | b < 256

  function Pow256(n: nat): (p: nat)
    ensures p > 0
  {
    if n == 0 then 1 else 256 * Pow256(n - 1)
  }

  /** The `width` low bytes of n, most significant first. */
  function BigEndian(n: nat, width: nat): (s: seq<Byte>)
    ensures |s| == width
  {
    if width == 0 then [] else BigEndian(n / 256, width - 1) + [n % 256]
  }

  function FromBigEndian(s: seq<Byte>): nat {
    if s == [] then 0 else FromBigEndian(s[..|s| - 1]) * 256 + s[|s| - 1]
  }

  lemma {:induction false} BigEndianReadsBack(n: nat, width: nat)
    requires n < Pow256(width)
    ensures FromBigEndian(BigEndian(n, width)) == n
  {
    if width == 0 {
    } else {
      HighBytesFit(n, Pow256(width - 1));
      BigEndianReadsBack(n / 256, width - 1);
      LastByteReadsBack(n, BigEndian(n / 256, width - 1));
    }
  }

  lemma HighBytesFit(n: nat, bound: nat)
    requires n < 256 * bound
    ensures n / 256 < bound
  {
  }

  lemma LastByteReadsBack(n: nat, front: seq<Byte>)
    requires FromBigEndian(front) == n / 256
    ensures FromBigEndian(front + [n % 256]) == n
  {
    assert (front + [n % 256])[..|front|] == front;
  }
}
