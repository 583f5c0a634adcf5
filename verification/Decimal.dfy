/** Decimal numerals as Rust and JavaScript print and read them. */
module Decimal {
  import opened Wrappers
  import opened Arithmetic
  import opened Text

  predicate IsDigit(c: char) {
    '0' <= c <= '9'
  }

  predicate AllDigits(s: string) {
    forall i | 0 <= i < |s| :: IsDigit(s[i])
  }

  function DigitChar(d: nat): (c: char)
    requires d < 10
    ensures IsDigit(c) && c as int - '0' as int == d
  {
    '0' + d as char
  }

  function Print(n: nat): (s: string)
    ensures s != [] && AllDigits(s)
  {
    if n < 10 then [DigitChar(n)] else Print(n / 10) + [DigitChar(n % 10)]
  }

  function Value(s: string): nat
    requires AllDigits(s)
  {
    if s == [] then 0 else Value(s[..|s| - 1]) * 10 + (s[|s| - 1] as int - '0' as int)
  }

  lemma {:induction false} PrintReadsBack(n: nat)
    ensures Value(Print(n)) == n
  {
    var s := Print(n);
    if n < 10 {
      assert s[..0] == [];
    } else {
      PrintReadsBack(n / 10);
      assert s[..|s| - 1] == Print(n / 10);
    }
  }

  /** `str::parse::<usize>`: an optional plus sign and at least one digit, nothing else. */
  function ParseUsize(s: string): Option<nat> {
    var digits := if s != [] && s[0] == '+' then s[1..] else s;
    if digits == [] || !AllDigits(digits) || Value(digits) > USIZE_MAX then None else Some(Value(digits))
  }

  function DigitPrefix(s: string): (p: string)
    ensures p <= s && AllDigits(p)
  {
    if s == [] || !IsDigit(s[0]) then [] else [s[0]] + DigitPrefix(s[1..])
  }

  /** `Number.parseInt(s, 10)`, None standing for NaN: leading white space, an optional
      sign, then as many digits as there are. */
  function ParseInt(s: string): Option<int> {
    var t := TrimStart(s);
    var signed := t != [] && (t[0] == '-' || t[0] == '+');
    var digits := DigitPrefix(if signed then t[1..] else t);
    var magnitude: int := Value(digits);
    if digits == [] then None else Some(if signed && t[0] == '-' then -magnitude else magnitude)
  }

  lemma {:induction false} DigitPrefixOfDigits(s: string)
    requires AllDigits(s)
    ensures DigitPrefix(s) == s
  {
    if s == [] {
    } else {
      DigitPrefixOfDigits(s[1..]);
    }
  }

  /** What was printed is read back, by either reader. */
  lemma ParseIntReadsBack(n: nat)
    ensures ParseInt(Print(n)) == Some(n)
  {
    PrintReadsBack(n);
    ParseIntOfDigits(Print(n));
  }

  lemma ParseIntOfDigits(s: string)
    requires s != [] && AllDigits(s)
    ensures ParseInt(s) == Some(Value(s))
  {
    assert IsDigit(s[0]) && IsDigit(s[|s| - 1]);
    NothingToTrim(s);
    DigitPrefixOfDigits(s);
  }

  lemma ParseUsizeReadsBack(n: nat)
    requires n <= USIZE_MAX
    ensures ParseUsize(Trim(Print(n))) == Some(n)
  {
    var s := Print(n);
    assert IsDigit(s[0]) && IsDigit(s[|s| - 1]);
    NothingToTrim(s);
    PrintReadsBack(n);
  }
}
