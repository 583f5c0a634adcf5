/** Six-character join codes: how a 64-bit seed becomes a code, and why looking for
    a code nobody holds always ends. */
module JoinCodes {
  import opened Arithmetic

  const MAX_ATTEMPTS: nat := 128
  const CODE_LENGTH: nat := 6
  const RADIX: nat := 32
  const ALPHABET: string := "ABCDEFGHJKLMNPQRSTUVWXYZ23456789"

  /** 32^6, the number of different codes. */
  const CODE_SPACE: nat := 0x4000_0000

  type U64 = n: nat | n < TWO_POW_64

  // ---------------------------------------------------------------- encoding

  function Pow32(n: nat): (p: nat)
    ensures p > 0
  {
    if n == 0 then 1 else RADIX * Pow32(n - 1)
  }

  /** The n low base-32 digits of v, most significant first. */
  function Digits(v: nat, n: nat): (s: string)
    ensures |s| == n
  {
    if n == 0 then [] else Digits(v / RADIX, n - 1) + [ALPHABET[v % RADIX]]
  }

  function JoinCode(v: nat): string {
    Digits(v, CODE_LENGTH)
  }

  /** The digit a symbol stands for. The alphabet leaves out I, O, 0 and 1. */
  function SymbolValue(c: char): nat {
    if 'A' <= c <= 'H' then (c - 'A') as nat
    else if 'J' <= c <= 'N' then (c - 'J') as nat + 8
    else if 'P' <= c <= 'Z' then (c - 'P') as nat + 13
    else if '2' <= c <= '9' then (c - '2') as nat + 24
    else RADIX
  }

  predicate IsSymbol(c: char) {
    SymbolValue(c) < RADIX
  }

  predicate IsCode(s: string) {
    |s| == CODE_LENGTH && forall i | 0 <= i < |s| :: IsSymbol(s[i])
  }

  function CodeValue(s: string): nat {
    if s == [] then 0 else CodeValue(s[..|s| - 1]) * RADIX + SymbolValue(s[|s| - 1])
  }

  lemma SymbolsDecode(d: nat)
    requires d < RADIX
    ensures SymbolValue(ALPHABET[d]) == d
  {
  }

  lemma SymbolsEncode(c: char)
    requires IsSymbol(c)
    ensures ALPHABET[SymbolValue(c)] == c
  {
    SymbolsDecode(SymbolValue(c));
  }

  lemma SplitLastDigit(v: nat, m: nat)
    requires m > 0
    ensures v % (RADIX * m) == (v / RADIX % m) * RADIX + v % RADIX
  {
    var q, r := v / RADIX, v % RADIX;
    var t, u := q / m, q % m;
    assert v == (RADIX * m) * t + (u * RADIX + r) by {
      assert q == m * t + u;
      assert RADIX * (m * t) == (RADIX * m) * t;
    }
    assert 0 <= u * RADIX + r < RADIX * m by {
      assert u <= m - 1;
    }
    RemainderIsUnique(v, RADIX * m, t, u * RADIX + r);
  }

  lemma {:induction false} DigitsDecode(v: nat, n: nat)
    ensures CodeValue(Digits(v, n)) == v % Pow32(n)
  {
    if n == 0 {
    } else {
      DigitsDecode(v / RADIX, n - 1);
      SymbolsDecode(v % RADIX);
      var s := Digits(v, n);
      assert s[..|s| - 1] == Digits(v / RADIX, n - 1);
      SplitLastDigit(v, Pow32(n - 1));
    }
  }

  lemma {:induction false} DigitsEncode(s: string)
    requires forall i | 0 <= i < |s| :: IsSymbol(s[i])
    ensures Digits(CodeValue(s), |s|) == s
  {
    if s == [] {
    } else {
      var front, c := s[..|s| - 1], s[|s| - 1];
      SymbolsEncode(c);
      DigitsEncode(front);
      RemainderIsUnique(CodeValue(s), RADIX, CodeValue(front), SymbolValue(c));
    }
  }

  lemma {:induction false} DigitsAreSymbols(v: nat, n: nat)
    ensures forall i | 0 <= i < n :: IsSymbol(Digits(v, n)[i])
  {
    if n == 0 {
    } else {
      DigitsAreSymbols(v / RADIX, n - 1);
      SymbolsDecode(v % RADIX);
    }
  }

  lemma CodeSpaceIsPow32()
    ensures Pow32(CODE_LENGTH) == CODE_SPACE
  {
    assert Pow32(2) == 1024;
    assert Pow32(4) == 0x10_0000;
  }

  /** Two seeds give the same code exactly when they agree modulo 32^6. */
  lemma CodesAgreeModuloCodeSpace(a: nat, b: nat)
    ensures JoinCode(a) == JoinCode(b) <==> a % CODE_SPACE == b % CODE_SPACE
  {
    CodeSpaceIsPow32();
    DigitsDecode(a, CODE_LENGTH);
    DigitsDecode(b, CODE_LENGTH);
    DigitsAreSymbols(a, CODE_LENGTH);
    DigitsAreSymbols(b, CODE_LENGTH);
    DigitsEncode(JoinCode(a));
    DigitsEncode(JoinCode(b));
  }

  /** Codes are exactly the six-letter words over the alphabet: every seed gives one,
      and every one comes from the seed it spells. */
  lemma CodesAreAlphabetWords(v: nat, s: string)
    ensures IsCode(JoinCode(v)) && CodeValue(JoinCode(v)) == v % CODE_SPACE
    ensures IsCode(s) ==> JoinCode(CodeValue(s)) == s
  {
    CodeSpaceIsPow32();
    DigitsAreSymbols(v, CODE_LENGTH);
    DigitsDecode(v, CODE_LENGTH);
    if IsCode(s) {
      DigitsEncode(s);
    }
  }

  /** Fills the code from its last character to its first. */
  method EncodeJoinCode(seed: U64) returns (code: string)
    ensures code == JoinCode(seed)
  {
    var out := new char[CODE_LENGTH](_ => ALPHABET[0]);
    var value: nat := seed;
    var idx := CODE_LENGTH;
    while idx > 0
      invariant 0 <= idx <= CODE_LENGTH
      invariant Digits(value, idx) + out[idx..] == JoinCode(seed)
    {
      idx := idx - 1;
      ghost var tail := out[idx + 1..];
      out[idx] := ALPHABET[value % RADIX];
      assert out[idx..] == [ALPHABET[value % RADIX]] + tail;
      value := value / RADIX;
    }
    assert out[0..] == out[..];
    code := out[..];
  }

  // -------------------------------------------------------------- allocation

  /** The code of the seed reached by counting n up from `seed`, wrapping at 2^64. */
  function CountedCode(seed: U64, n: nat): string {
    JoinCode((seed + n) % TWO_POW_64)
  }

  lemma WrappingKeepsLowDigits(v: nat)
    ensures v % TWO_POW_64 % CODE_SPACE == v % CODE_SPACE
  {
  }

  /** Counting up from any seed, wrapping at 2^64, gives 32^6 different codes in a row. */
  lemma ConsecutiveCodesDiffer(seed: U64, i: nat, j: nat)
    requires i < j < CODE_SPACE
    ensures CountedCode(seed, i) != CountedCode(seed, j)
  {
    WrappingKeepsLowDigits(seed + i);
    WrappingKeepsLowDigits(seed + j);
    CodesAgreeModuloCodeSpace((seed + i) % TWO_POW_64, (seed + j) % TWO_POW_64);
    DifferModulo(seed + i, seed + j);
  }

  lemma DifferModulo(a: nat, b: nat)
    requires a < b < a + CODE_SPACE
    ensures a % CODE_SPACE != b % CODE_SPACE
  {
  }

  /** The n-th seed drawn is the first whose code is free. */
  ghost predicate FirstFreeDraw(live: set<string>, seeds: seq<U64>, n: nat, code: string)
    requires n < |seeds|
  {
    code == JoinCode(seeds[n]) && code !in live && forall j | 0 <= j < n :: JoinCode(seeds[j]) in live
  }

  /** n steps up from `start` is the first code that is free. */
  ghost predicate FirstFreeCount(live: set<string>, start: U64, n: nat, code: string) {
    code == CountedCode(start, n) && code !in live && forall j: nat | j < n :: CountedCode(start, j) in live
  }

  lemma NextSeed(start: U64, n: nat)
    ensures ((start + n) % TWO_POW_64 + 1) % TWO_POW_64 == (start + (n + 1)) % TWO_POW_64
  {
  }

  /** Counts up until a code is free, which takes at most |live| + 1 tries. */
  method CountUpToFreeCode(live: set<string>, start: U64) returns (code: string)
    requires |live| < CODE_SPACE
    ensures IsCode(code) && exists n: nat :: n <= |live| && FirstFreeCount(live, start, n, code)
  {
    var seed: U64 := start;
    ghost var n := 0;
    while true
      invariant seed == (start + n) % TWO_POW_64
      invariant n <= |live|
      invariant forall j: nat | j < n :: CountedCode(start, j) in live
      decreases |live| - n
    {
      code := EncodeJoinCode(seed);
      assert code == CountedCode(start, n);
      if code !in live {
        CodesAreAlphabetWords(seed, code);
        assert FirstFreeCount(live, start, n, code);
        return;
      }
      DistinctCodesFit(live, start, n + 1);
      NextSeed(start, n);
      n := n + 1;
      seed := (seed + 1) % TWO_POW_64;
    }
  }

  /** `live` holds the codes in use, `seeds` what the seed source delivers call by call:
      128 draws tried on their own, then one to count up from. */
  method NextAvailableCode(live: set<string>, seeds: seq<U64>) returns (code: string)
    requires |seeds| == MAX_ATTEMPTS + 1
    requires |live| < CODE_SPACE
    ensures IsCode(code) && code !in live
    ensures
      || (exists n | 0 <= n < MAX_ATTEMPTS :: FirstFreeDraw(live, seeds, n, code))
      || ((forall j | 0 <= j < MAX_ATTEMPTS :: JoinCode(seeds[j]) in live)
          && exists n: nat :: n <= |live| && FirstFreeCount(live, seeds[MAX_ATTEMPTS], n, code))
  {
    for n := 0 to MAX_ATTEMPTS
      invariant forall j | 0 <= j < n :: JoinCode(seeds[j]) in live
    {
      code := EncodeJoinCode(seeds[n]);
      if code !in live {
        CodesAreAlphabetWords(seeds[n], code);
        assert FirstFreeDraw(live, seeds, n, code);
        return;
      }
    }
    code := CountUpToFreeCode(live, seeds[MAX_ATTEMPTS]);
  }

  /** If n codes counted from `seed` are all in use then at least n codes are in use. */
  lemma {:induction false} DistinctCodesFit(live: set<string>, seed: U64, n: nat)
    requires n <= CODE_SPACE
    requires forall j: nat | j < n :: CountedCode(seed, j) in live
    ensures n <= |live|
  {
    if n == 0 {
    } else {
      var last := CountedCode(seed, n - 1);
      forall j: nat | j < n - 1 ensures CountedCode(seed, j) in live - {last} {
        ConsecutiveCodesDiffer(seed, j, n - 1);
      }
      DistinctCodesFit(live - {last}, seed, n - 1);
    }
  }

  // ------------------------------------------------------------- seed mixing

  const GOLDEN: nat := 0x9E37_79B9_7F4A_7C15
  const MULTIPLIER_1: nat := 0xBF58_476D_1CE4_E5B9
  const MULTIPLIER_2: nat := 0x94D0_49BB_1331_11EB

  /** The inverses of the two odd multipliers modulo 2^64. */
  const INVERSE_1: nat := 0x96DE_1B17_3F11_9089
  const INVERSE_2: nat := 0x3196_42B2_D24D_8EC3

  const QUOTIENT_1: nat := 0x70c3bca78f27f46c
  const QUOTIENT_2: nat := 0x1cd336eda85f1453

  lemma InversesMultiplyToOne()
    ensures MULTIPLIER_1 * INVERSE_1 == TWO_POW_64 * QUOTIENT_1 + 1
    ensures MULTIPLIER_2 * INVERSE_2 == TWO_POW_64 * QUOTIENT_2 + 1
  {
  }

  function WrappingAdd(a: nat, b: nat): U64 {
    (a + b) % TWO_POW_64
  }

  function WrappingMul(a: nat, b: nat): U64 {
    (a * b) % TWO_POW_64
  }

  /** Folds the high bits into the low ones and multiplies. */
  function MixRound(a: U64, k: nat, multiplier: nat): U64 {
    WrappingMul(XorShift(a, k), multiplier)
  }

  function MixSeed(value: U64): nat {
    XorShift(MixRound(MixRound(WrappingAdd(value, GOLDEN), 30, MULTIPLIER_1), 27, MULTIPLIER_2), 31)
  }

  function UndoRound(v: U64, k: nat, inverse: nat): nat
    requires k > 0
  {
    UndoXorShift(WrappingMul(v, inverse), k)
  }

  /** The inverse, on 64-bit values. */
  function UnmixSeed(value: U64): nat {
    MixingStaysIn64Bits(value, 31);
    var c: U64 := UndoXorShift(value, 31);
    MixingStaysIn64Bits(WrappingMul(c, INVERSE_2), 27);
    var b: U64 := UndoRound(c, 27, INVERSE_2);
    WrappingAdd(UndoRound(b, 30, INVERSE_1), TWO_POW_64 - GOLDEN)
  }

  lemma WrappingAddInverse(x: U64)
    ensures WrappingAdd(WrappingAdd(x, GOLDEN), TWO_POW_64 - GOLDEN) == x
    ensures WrappingAdd(WrappingAdd(x, TWO_POW_64 - GOLDEN), GOLDEN) == x
  {
  }

  lemma WrappingMulInverse(x: U64, c: nat, d: nat, k: nat)
    requires c * d == TWO_POW_64 * k + 1
    ensures WrappingMul(WrappingMul(x, c), d) == x
  {
    var q, r := x * c / TWO_POW_64, WrappingMul(x, c);
    assert x * c == TWO_POW_64 * q + r;
    assert r * d == TWO_POW_64 * (x * k - q * d) + x by {
      assert r * d == (x * c) * d - (TWO_POW_64 * q) * d;
      assert (x * c) * d == x * (c * d) == TWO_POW_64 * (x * k) + x;
      assert (TWO_POW_64 * q) * d == TWO_POW_64 * (q * d);
    }
    RemainderIsUnique(r * d, TWO_POW_64, x * k - q * d, x);
  }

  lemma Pow2Of64()
    ensures Pow2(64) == TWO_POW_64
  {
    assert Pow2(8) == 256;
    assert Pow2(16) == 0x1_0000;
    assert Pow2(24) == 0x100_0000;
    assert Pow2(32) == 0x1_0000_0000;
    assert Pow2(40) == 0x100_0000_0000;
    assert Pow2(48) == 0x1_0000_0000_0000;
    assert Pow2(56) == 0x100_0000_0000_0000;
  }

  lemma MixingStaysIn64Bits(x: U64, k: nat)
    requires k > 0
    ensures XorShift(x, k) < TWO_POW_64 && UndoXorShift(x, k) < TWO_POW_64
  {
    Pow2Of64();
    XorBound(x, ShiftRight(x, k), 64);
    UndoXorShiftBound(x, k, 64);
  }

  lemma RoundInverse(a: U64, k: nat, c: nat, d: nat, q: nat)
    requires k > 0 && c * d == TWO_POW_64 * q + 1
    ensures UndoRound(MixRound(a, k, c), k, d) == a
  {
    MixingStaysIn64Bits(a, k);
    WrappingMulInverse(XorShift(a, k), c, d, q);
    XorShiftInverse(a, k);
  }

  lemma UndoRoundInverse(v: U64, k: nat, c: nat, d: nat, q: nat)
    requires k > 0 && d * c == TWO_POW_64 * q + 1
    ensures UndoRound(v, k, d) < TWO_POW_64 && MixRound(UndoRound(v, k, d), k, c) == v
  {
    MixingStaysIn64Bits(WrappingMul(v, d), k);
    WrappingMulInverse(v, d, c, q);
    UndoXorShiftInverse(WrappingMul(v, d), k);
  }

  /** Mixing is a bijection on 64-bit values, so distinct inputs never collide before
      they are encoded. */
  lemma MixSeedIsABijection(x: U64)
    ensures MixSeed(x) < TWO_POW_64 && UnmixSeed(MixSeed(x)) == x
    ensures UnmixSeed(x) < TWO_POW_64 && MixSeed(UnmixSeed(x)) == x
  {
    UnmixAfterMix(x);
    MixAfterUnmix(x);
  }

  lemma UnmixAfterMix(x: U64)
    ensures MixSeed(x) < TWO_POW_64 && UnmixSeed(MixSeed(x)) == x
  {
    InversesMultiplyToOne();
    WrappingAddInverse(x);
    var a := WrappingAdd(x, GOLDEN);
    var b := MixRound(a, 30, MULTIPLIER_1);
    var c := MixRound(b, 27, MULTIPLIER_2);
    RoundInverse(a, 30, MULTIPLIER_1, INVERSE_1, QUOTIENT_1);
    RoundInverse(b, 27, MULTIPLIER_2, INVERSE_2, QUOTIENT_2);
    MixingStaysIn64Bits(c, 31);
    XorShiftInverse(c, 31);
  }

  lemma MixAfterUnmix(x: U64)
    ensures MixSeed(UnmixSeed(x)) == x
  {
    InversesMultiplyToOne();
    MixingStaysIn64Bits(x, 31);
    UndoXorShiftInverse(x, 31);
    var c: U64 := UndoXorShift(x, 31);
    UndoRoundInverse(c, 27, MULTIPLIER_2, INVERSE_2, QUOTIENT_2);
    var b: U64 := UndoRound(c, 27, INVERSE_2);
    UndoRoundInverse(b, 30, MULTIPLIER_1, INVERSE_1, QUOTIENT_1);
    WrappingAddInverse(UndoRound(b, 30, INVERSE_1));
  }
}
