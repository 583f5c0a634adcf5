/** Machine integer sizes, and facts about division and about exclusive-or. */
module Arithmetic {

  const TWO_POW_32: nat := 0x1_0000_0000
  const TWO_POW_64: nat := 0x1_0000_0000_0000_0000
  const U64_MAX: nat := 0xFFFF_FFFF_FFFF_FFFF

  /** `usize` is 64 bits wide. */
  const USIZE_MAX: nat := 0xFFFF_FFFF_FFFF_FFFF

  function Max(a: int, b: int): int {
    if a >= b then a else b
  }

  function Min(a: int, b: int): int {
    if a <= b then a else b
  }

  lemma QuotientIsUnique(d: int, q: int, r: int, q': int, r': int)
    requires 0 <= r < d && 0 <= r' < d && d * q + r == d * q' + r'
    ensures q == q' && r == r'
  {
    if q < q' {
      assert d * q' >= d * q + d by { MulMonotone(d, q + 1, q'); }
      assert false;
    } else if q' < q {
      assert d * q >= d * q' + d by { MulMonotone(d, q' + 1, q); }
      assert false;
    }
  }

  lemma MulMonotone(d: nat, a: int, b: int)
    requires a <= b
    ensures d * a <= d * b
  {
    assert d * (b - a) >= 0;
  }

  lemma RemainderIsUnique(v: int, d: int, q: int, r: int)
    requires 0 <= r < d && v == d * q + r
    ensures v / d == q && v % d == r
  {
    QuotientIsUnique(d, q, r, v / d, v % d);
  }

  function Pow2(n: nat): (p: nat)
    ensures p > 0
  {
    if n == 0 then 1 else 2 * Pow2(n - 1)
  }

  // ------------------------------------------------------------ exclusive-or

  /** Bitwise exclusive-or. */
  function Xor(a: nat, b: nat): nat {
    if a == 0 && b == 0 then 0 else 2 * Xor(a / 2, b / 2) + (if a % 2 == b % 2 then 0 else 1)
  }

  lemma XorSplitsLastBit(a: nat, b: nat)
    ensures Xor(a, b) / 2 == Xor(a / 2, b / 2) && Xor(a, b) % 2 == (if a % 2 == b % 2 then 0 else 1)
  {
    if a != 0 || b != 0 {
      RemainderIsUnique(Xor(a, b), 2, Xor(a / 2, b / 2), if a % 2 == b % 2 then 0 else 1);
    }
  }

  lemma {:induction false} XorCancels(a: nat, b: nat)
    ensures Xor(Xor(a, b), b) == a
  {
    if a != 0 || b != 0 {
      XorCancels(a / 2, b / 2);
      XorSplitsLastBit(a, b);
      XorSplitsLastBit(Xor(a, b), b);
    }
  }

  lemma {:induction false} XorBound(a: nat, b: nat, n: nat)
    requires a < Pow2(n) && b < Pow2(n)
    ensures Xor(a, b) < Pow2(n)
  {
    if n == 0 {
    } else {
      XorBound(a / 2, b / 2, n - 1);
    }
  }

  function ShiftRight(a: nat, k: nat): (r: nat)
    ensures r <= a
    ensures a > 0 && k > 0 ==> r < a
  {
    if k == 0 then a else ShiftRight(a / 2, k - 1)
  }

  lemma {:induction false} XorShifts(a: nat, b: nat, k: nat)
    ensures ShiftRight(Xor(a, b), k) == Xor(ShiftRight(a, k), ShiftRight(b, k))
  {
    if k == 0 {
    } else {
      XorShifts(a / 2, b / 2, k - 1);
    }
  }

  /** Is bit k of a set? */
  predicate BitOf(a: nat, k: nat) {
    ShiftRight(a, k) % 2 == 1
  }

  /** Each bit of an exclusive-or is set exactly when one of the two bits is. */
  lemma XorIsBitwise(a: nat, b: nat, k: nat)
    ensures BitOf(Xor(a, b), k) <==> BitOf(a, k) != BitOf(b, k)
  {
    XorShifts(a, b, k);
    XorSplitsLastBit(ShiftRight(a, k), ShiftRight(b, k));
  }

  /** a ^ (a >> k). */
  function XorShift(a: nat, k: nat): nat {
    Xor(a, ShiftRight(a, k))
  }

  /** y ^ (y >> k) ^ (y >> 2k) ^ ... until nothing is left to shift. */
  function UndoXorShift(y: nat, k: nat): nat
    requires k > 0
  {
    if y == 0 then 0 else Xor(y, UndoXorShift(ShiftRight(y, k), k))
  }

  lemma {:induction false} XorShiftInverse(x: nat, k: nat)
    requires k > 0
    ensures UndoXorShift(XorShift(x, k), k) == x
  {
    var y, h := XorShift(x, k), ShiftRight(x, k);
    if x == 0 {
      assert ShiftRight(0, k) == 0;
    } else {
      XorShiftInverse(h, k);
      XorShifts(x, h, k);
      assert UndoXorShift(ShiftRight(y, k), k) == h;
      XorCancels(x, h);
    }
  }

  lemma {:induction false} UndoXorShiftInverse(y: nat, k: nat)
    requires k > 0
    ensures XorShift(UndoXorShift(y, k), k) == y
  {
    if y == 0 {
      assert ShiftRight(0, k) == 0;
    } else {
      var s := ShiftRight(y, k);
      var u := UndoXorShift(s, k);
      UndoXorShiftInverse(s, k);
      XorShifts(y, u, k);
      XorCancels(u, ShiftRight(u, k));
      assert ShiftRight(Xor(y, u), k) == u;
      XorCancels(y, u);
    }
  }

  lemma {:induction false} UndoXorShiftBound(y: nat, k: nat, n: nat)
    requires k > 0 && y < Pow2(n)
    ensures UndoXorShift(y, k) < Pow2(n)
  {
    if y != 0 {
      UndoXorShiftBound(ShiftRight(y, k), k, n);
      XorBound(y, UndoXorShift(ShiftRight(y, k), k), n);
    }
  }
}
