/** Finding an IDR picture in an H.264 bitstream: the scanner for start codes and its
    length-prefixed fallback, against the byte-stream format of Annex B of ITU-T H.264. */
module H264 {

  import opened Wrappers
  import opened Arithmetic
  import opened Bytes

  /** An IDR slice's NAL unit type. */
  const NAL_IDR: nat := 5

  function NalType(b: Byte): nat {
    b % 32
  }

  // ------------------------------------------------------------- the scanner

  predicate StartCode4(s: seq<Byte>, i: nat) {
    i + 4 <= |s| && s[i] == 0 && s[i + 1] == 0 && s[i + 2] == 0 && s[i + 3] == 1
  }

  predicate StartCode3(s: seq<Byte>, i: nat) {
    i + 3 <= |s| && s[i] == 0 && s[i + 1] == 0 && s[i + 2] == 1
  }

  datatype Scan = Scan(foundStartCode: bool, foundIdr: bool)

  /** What scanning for start codes from position i finds. */
  function ScanStartCodes(s: seq<Byte>, i: nat): Scan
    decreases |s| - i
  {
    if i + 3 > |s| then Scan(false, false)
    else if StartCode4(s, i) || StartCode3(s, i) then
      var nalStart := i + (if StartCode4(s, i) then 4 else 3);
      if nalStart >= |s| then Scan(true, false)
      else if NalType(s[nalStart]) == NAL_IDR then Scan(true, true)
      else Scan(true, ScanStartCodes(s, nalStart + 1).foundIdr)
    else ScanStartCodes(s, i + 1)
  }

  /** What reading 4-byte length prefixes from position i finds. */
  function ScanLengths(s: seq<Byte>, i: nat): bool
    decreases |s| - i
  {
    if i + 4 > |s| then false
    else
      var len := FromBigEndian(s[i..i + 4]);
      if len == 0 then ScanLengths(s, i + 4)
      else if i + 4 + len > |s| then false
      else NalType(s[i + 4]) == NAL_IDR || ScanLengths(s, i + 4 + len)
  }

  function ContainsIdr(s: seq<Byte>): bool {
    var scan := ScanStartCodes(s, 0);
    if scan.foundStartCode then scan.foundIdr else ScanLengths(s, 0)
  }

  method H264ContainsIdr(bitstream: seq<Byte>) returns (found: bool)
    ensures found == ContainsIdr(bitstream)
  {
    if bitstream == [] {
      return false;
    }
    var i := 0;
    var foundStartCode := false;
    while i + 3 <= |bitstream|
      invariant ScanStartCodes(bitstream, 0).foundIdr == ScanStartCodes(bitstream, i).foundIdr
      invariant ScanStartCodes(bitstream, 0).foundStartCode
                == (foundStartCode || ScanStartCodes(bitstream, i).foundStartCode)
      decreases |bitstream| - i
    {
      var startCodeLen := 0;
      if StartCode4(bitstream, i) {
        startCodeLen := 4;
      } else if StartCode3(bitstream, i) {
        startCodeLen := 3;
      } else {
        i := i + 1;
        continue;
      }
      foundStartCode := true;
      var nalStart := i + startCodeLen;
      if nalStart >= |bitstream| {
        break;
      }
      if NalType(bitstream[nalStart]) == NAL_IDR {
        return true;
      }
      i := nalStart + 1;
    }
    if foundStartCode {
      return false;
    }

    i := 0;
    while i + 4 <= |bitstream|
      invariant ScanLengths(bitstream, 0) == ScanLengths(bitstream, i)
      decreases |bitstream| - i
    {
      var len := FromBigEndian(bitstream[i..i + 4]);
      i := i + 4;
      if len == 0 {
        continue;
      }
      if i + len > |bitstream| {
        break;
      }
      if NalType(bitstream[i]) == NAL_IDR {
        return true;
      }
      i := i + len;
    }
    return false;
  }

  // ---------------------------------------------------- start-code streams

  /** A NAL unit behind a start code of at least two zero bytes and a one. Annex B writes
      two or three; any number may precede them. */
  datatype Unit = Unit(zeros: nat, nal: seq<Byte>)

  ghost predicate NoStartCode(s: seq<Byte>) {
    forall i: nat :: !StartCode3(s, i)
  }

  /** NAL units are not empty, hold no start code and do not end in a zero byte
      (section 7.4.1). */
  ghost predicate WellFormedNal(nal: seq<Byte>) {
    nal != [] && NoStartCode(nal) && nal[|nal| - 1] != 0
  }

  ghost predicate WellFormed(u: Unit) {
    u.zeros >= 2 && WellFormedNal(u.nal)
  }

  function Zeros(n: nat): seq<Byte> {
    seq(n, _ => 0)
  }

  function UnitBytes(u: Unit): seq<Byte> {
    Zeros(u.zeros) + [1] + u.nal
  }

  function Stream(units: seq<Unit>): seq<Byte> {
    if units == [] then [] else UnitBytes(units[0]) + Stream(units[1..])
  }

  predicate IsIdr(nal: seq<Byte>) {
    nal != [] && NalType(nal[0]) == NAL_IDR
  }

  predicate UnitIsIdr(u: Unit) {
    IsIdr(u.nal)
  }

  ghost predicate Any<T>(s: seq<T>, p: T -> bool) {
    exists x <- s :: p(x)
  }

  lemma AnySplits<T>(s: seq<T>, p: T -> bool)
    requires s != []
    ensures Any(s, p) <==> p(s[0]) || Any(s[1..], p)
  {
    assert s == [s[0]] + s[1..];
  }

  ghost predicate HasIdr(units: seq<Unit>) {
    Any(units, UnitIsIdr)
  }

  /** Positions without a start code are passed over. */
  lemma {:induction false} PassOver(s: seq<Byte>, i: nat, j: nat)
    requires i <= j <= |s|
    requires forall k | i <= k < j :: !StartCode3(s, k) && !StartCode4(s, k)
    ensures ScanStartCodes(s, i) == ScanStartCodes(s, j)
    decreases j - i
  {
    if i < j && i + 3 <= |s| {
      PassOver(s, i + 1, j);
    }
  }

  /** One unit: its start code is found, its type is read, and the rest of it is passed
      over. */
  lemma ScanUnit(s: seq<Byte>, p: nat, u: Unit, rest: seq<Byte>)
    requires p <= |s| && s[p..] == UnitBytes(u) + rest && WellFormed(u)
    ensures
      var next := p + u.zeros + 1 + |u.nal|;
      && next <= |s| && s[next..] == rest
      && ScanStartCodes(s, p)
         == Scan(true, NalType(u.nal[0]) == NAL_IDR || ScanStartCodes(s, next).foundIdr)
  {
    var nalStart := p + u.zeros + 1;
    UnitAt(s, p, u, rest);
    ReadStartCode(s, p, u.zeros);
    assert s[nalStart + 0] == u.nal[0];
    NoCodeInside(s, nalStart, u.nal);
    PassOver(s, nalStart + 1, nalStart + |u.nal|);
  }

  /** Zeros and a one lead to the byte behind them. */
  lemma ReadStartCode(s: seq<Byte>, p: nat, zeros: nat)
    requires zeros >= 2 && p + zeros + 1 < |s|
    requires s[p + zeros] == 1 && forall k | p <= k < p + zeros :: s[k] == 0
    ensures var nalStart := p + zeros + 1;
            ScanStartCodes(s, p)
            == Scan(true, NalType(s[nalStart]) == NAL_IDR || ScanStartCodes(s, nalStart + 1).foundIdr)
  {
    var code := if zeros == 2 then p else p + zeros - 3;
    PassOver(s, p, code);
    assert if zeros == 2 then StartCode3(s, code) && !StartCode4(s, code) else StartCode4(s, code);
  }

  /** The scanner reads a stream that starts at position p of a longer one. */
  lemma {:induction false} ScanFindsUnits(s: seq<Byte>, p: nat, units: seq<Unit>)
    requires p <= |s| && s[p..] == Stream(units)
    requires forall u <- units :: WellFormed(u)
    ensures ScanStartCodes(s, p) == Scan(units != [], HasIdr(units))
    decreases |units|
  {
    if units == [] {
    } else {
      var u, rest := units[0], units[1..];
      assert WellFormed(u);
      ScanUnit(s, p, u, Stream(rest));
      AnySplits(units, UnitIsIdr);
      ScanFindsUnits(s, p + u.zeros + 1 + |u.nal|, rest);
    }
  }

  /** Where the bytes of a unit lie. */
  lemma UnitAt(s: seq<Byte>, p: nat, u: Unit, rest: seq<Byte>)
    requires p <= |s| && s[p..] == UnitBytes(u) + rest
    ensures var nalStart := p + u.zeros + 1;
            && nalStart + |u.nal| <= |s| && s[nalStart + |u.nal|..] == rest
            && (forall k | p <= k < p + u.zeros :: s[k] == 0)
            && s[p + u.zeros] == 1
            && forall k | 0 <= k < |u.nal| :: s[nalStart + k] == u.nal[k]
  {
    var b := UnitBytes(u);
    assert forall k | 0 <= k < |b| :: s[p + k] == s[p..][k] == b[k];
    assert s[p + |b|..] == s[p..][|b|..];
    assert forall k | p <= k < p + u.zeros :: s[k] == b[k - p];
    forall k | 0 <= k < |u.nal| ensures s[p + u.zeros + 1 + k] == u.nal[k] {
      assert b[u.zeros + 1 + k] == u.nal[k];
      assert s[p + (u.zeros + 1 + k)] == b[u.zeros + 1 + k];
    }
  }

  /** No start code begins inside a NAL unit, not even one that ends beyond it. */
  lemma NoCodeInside(s: seq<Byte>, nalStart: nat, nal: seq<Byte>)
    requires WellFormedNal(nal) && nalStart + |nal| <= |s|
    requires forall k | 0 <= k < |nal| :: s[nalStart + k] == nal[k]
    ensures forall k | nalStart <= k < nalStart + |nal| :: !StartCode3(s, k) && !StartCode4(s, k)
  {
    forall k | nalStart <= k < nalStart + |nal| ensures !StartCode3(s, k) && !StartCode4(s, k) {
      var j := k - nalStart;
      assert !StartCode3(nal, j) && !StartCode3(nal, j + 1);
      assert s[nalStart + (|nal| - 1)] != 0;
      assert j + 1 < |nal| ==> s[nalStart + (j + 1)] == nal[j + 1];
      assert j + 2 < |nal| ==> s[nalStart + (j + 2)] == nal[j + 2];
      assert j + 3 < |nal| ==> s[nalStart + (j + 3)] == nal[j + 3];
      assert s[nalStart + j] == nal[j];
    }
  }

  /** On every byte stream of start codes and well-formed NAL units the scanner answers
      whether some unit is an IDR slice. */
  lemma StartCodeStreamsAreReadRight(units: seq<Unit>)
    requires forall u <- units :: WellFormed(u)
    ensures ContainsIdr(Stream(units)) <==> HasIdr(units)
  {
    var s := Stream(units);
    assert s[0..] == s;
    ScanFindsUnits(s, 0, units);
  }

  // -------------------------------------------------- length-prefixed streams

  ghost predicate FitPrefix(nals: seq<seq<Byte>>) {
    forall nal <- nals :: |nal| < 0x1_0000_0000
  }

  ghost function Prefixed(nals: seq<seq<Byte>>): seq<Byte>
    requires FitPrefix(nals)
  {
    if nals == [] then [] else BigEndian(|nals[0]|, 4) + nals[0] + Prefixed(nals[1..])
  }

  ghost predicate SomeIdr(nals: seq<seq<Byte>>) {
    Any(nals, IsIdr)
  }

  /** Where the bytes of a unit and its length lie. */
  lemma NalAt(s: seq<Byte>, p: nat, prefix: seq<Byte>, nal: seq<Byte>, rest: seq<Byte>)
    requires p <= |s| && s[p..] == prefix + nal + rest && |prefix| == 4
    ensures p + 4 + |nal| <= |s| && s[p + 4 + |nal|..] == rest && s[p..p + 4] == prefix
    ensures forall k | 0 <= k < |nal| :: s[p + 4 + k] == nal[k]
  {
    assert prefix + nal + rest == prefix + (nal + rest);
    PartsAt(s, p, prefix, nal + rest);
    PartsAt(s, p + 4, nal, rest);
  }

  lemma PartsAt(s: seq<Byte>, p: nat, a: seq<Byte>, b: seq<Byte>)
    requires p <= |s| && s[p..] == a + b
    ensures p + |a| <= |s| && s[p..p + |a|] == a && s[p + |a|..] == b
    ensures forall k | 0 <= k < |a| :: s[p + k] == a[k]
  {
    assert s[p..p + |a|] == s[p..][..|a|];
    assert s[p + |a|..] == s[p..][|a|..];
    assert forall k | 0 <= k < |a| :: s[p + k] == s[p..][k];
  }

  lemma ScanNal(s: seq<Byte>, p: nat, nal: seq<Byte>, rest: seq<Byte>)
    requires |nal| < 0x1_0000_0000 && p <= |s| && s[p..] == BigEndian(|nal|, 4) + nal + rest
    ensures
      var next := p + 4 + |nal|;
      && next <= |s| && s[next..] == rest
      && ScanLengths(s, p) == (IsIdr(nal) || ScanLengths(s, next))
  {
    NalAt(s, p, BigEndian(|nal|, 4), nal, rest);
    assert nal != [] ==> s[p + 4 + 0] == nal[0];
    assert Pow256(4) == 0x1_0000_0000;
    BigEndianReadsBack(|nal|, 4);
  }

  lemma {:induction false} LengthsFindNals(s: seq<Byte>, p: nat, nals: seq<seq<Byte>>)
    requires FitPrefix(nals) && p <= |s| && s[p..] == Prefixed(nals)
    ensures ScanLengths(s, p) == SomeIdr(nals)
    decreases |nals|
  {
    if nals == [] {
    } else {
      ScanNal(s, p, nals[0], Prefixed(nals[1..]));
      LengthsFindNals(s, p + 4 + |nals[0]|, nals[1..]);
      AnySplits(nals, IsIdr);
    }
  }

  /** Which of the start codes that show up in s the scanner reads: all but those that begin
      at the very byte it takes for the type behind another one it read. */
  predicate IsRead(s: seq<Byte>, k: nat) {
    StartCode3(s, k) && !(k >= 3 && IsRead(s, k - 3))
  }

  predicate LeadsToIdr(s: seq<Byte>, k: nat) {
    IsRead(s, k) && k + 3 < |s| && NalType(s[k + 3]) == NAL_IDR
  }

  ghost predicate ReadsIdr(s: seq<Byte>, i: nat) {
    exists k: nat :: i <= k && LeadsToIdr(s, k)
  }

  ghost predicate HasStartCode(s: seq<Byte>, i: nat) {
    exists k: nat :: i <= k && StartCode3(s, k)
  }

  /** No start code read before position i ends there or later. */
  ghost predicate ReadOut(s: seq<Byte>, i: nat) {
    forall k: nat | k < i <= k + 3 :: !IsRead(s, k)
  }

  lemma {:induction false} ScanMeans(s: seq<Byte>, i: nat)
    requires ReadOut(s, i)
    ensures ScanStartCodes(s, i) == Scan(HasStartCode(s, i), ReadsIdr(s, i))
    decreases |s| - i
  {
    if i + 3 <= |s| {
      if StartCode4(s, i) || StartCode3(s, i) {
        var code := if StartCode4(s, i) then i + 1 else i;
        assert IsRead(s, code);
        CodeIsReadOut(s, code);
        if code + 3 < |s| {
          ScanMeans(s, code + 4);
          NothingBeforeNext(s, i, code);
        } else {
          assert forall k: nat | i <= k && LeadsToIdr(s, k) :: false;
        }
      } else {
        assert !IsRead(s, i);
        ScanMeans(s, i + 1);
        assert forall k: nat | i <= k && StartCode3(s, k) :: i + 1 <= k;
      }
    }
  }

  lemma CodeIsReadOut(s: seq<Byte>, code: nat)
    requires IsRead(s, code)
    ensures ReadOut(s, code + 4)
  {
    forall k: nat | k < code + 4 <= k + 3 ensures !IsRead(s, k) {
      assert k == code + 1 || k == code + 2 || k == code + 3;
    }
  }

  /** Of the codes from i on, those before code + 4 that are read are just `code`. */
  lemma NothingBeforeNext(s: seq<Byte>, i: nat, code: nat)
    requires IsRead(s, code) && (code == i || (code == i + 1 && s[i] == 0))
    ensures ReadsIdr(s, i) <==> LeadsToIdr(s, code) || ReadsIdr(s, code + 4)
  {
    CodeIsReadOut(s, code);
    forall k: nat | i <= k && IsRead(s, k) ensures k == code || k >= code + 4 {
    }
  }

  /** Whatever bytes a stream holds: the scanner answers for the start codes it reads if any
      start code shows up, and for the lengths if none does. */
  lemma AnswerInBytes(s: seq<Byte>)
    ensures ContainsIdr(s) <==> if NoStartCode(s) then ScanLengths(s, 0) else ReadsIdr(s, 0)
  {
    ScanMeans(s, 0);
  }

  /** A length-prefixed stream is read right exactly when no start code shows up in it, or
      else an IDR type stands behind one that is read just when some unit is an IDR slice. */
  lemma LengthPrefixedStreamsAreReadRightExactlyWhen(nals: seq<seq<Byte>>)
    requires FitPrefix(nals)
    ensures var s := Prefixed(nals);
            (ContainsIdr(s) <==> SomeIdr(nals)) <==> NoStartCode(s) || (ReadsIdr(s, 0) <==> SomeIdr(nals))
  {
    var s := Prefixed(nals);
    assert s[0..] == s;
    AnswerInBytes(s);
    LengthsFindNals(s, 0, nals);
  }

  // --------------------------------------- where well-formed units are misread

  /** The byte that the scanner takes for a type because the length of a unit, or the length
      and the unit's first bytes, read as a start code; None if they do not. */
  function ByteRead(nal: seq<Byte>): Option<Byte> {
    var n := |nal|;
    if 256 <= n < 512 then Some(n % 256)
    else if n % 0x100_0000 == 1 then Some(nal[0])
    else if n > 0 && n % 0x1_0000 == 0 && nal[0] == 1 then Some(nal[1])
    else if n > 0 && n % 0x100 == 0 && nal[0] == 0 && nal[1] == 1 then Some(nal[2])
    else None
  }

  predicate Misleads(nal: seq<Byte>) {
    ByteRead(nal) != None
  }

  predicate MisleadsToIdr(nal: seq<Byte>) {
    ByteRead(nal) != None && NalType(ByteRead(nal).value) == NAL_IDR
  }

  /** The number that four bytes spell. */
  function Spelled(a: nat, b: nat, c: nat, d: nat): nat {
    0x100_0000 * a + 0x1_0000 * b + 0x100 * c + d
  }

  lemma FourBytes(s: seq<Byte>)
    requires |s| == 4
    ensures FromBigEndian(s) == Spelled(s[0], s[1], s[2], s[3])
  {
    assert s[..3][..2] == s[..2] && s[..2][..1] == s[..1] && s[..1][..0] == [];
    assert FromBigEndian(s[..1]) == s[0];
    assert FromBigEndian(s[..2]) == Spelled(0, 0, s[0], s[1]);
  }

  lemma LowBytes(n: nat, a: Byte, b: Byte, c: Byte, d: Byte)
    requires n == Spelled(a, b, c, d)
    ensures n % 0x100_0000 == Spelled(0, b, c, d)
    ensures n % 0x1_0000 == Spelled(0, 0, c, d)
    ensures n % 0x100 == d
  {
    CutTo(n, 0x100_0000, a, Spelled(0, b, c, d));
    CutTo(n, 0x1_0000, Spelled(0, 0, a, b), Spelled(0, 0, c, d));
    CutTo(n, 0x100, Spelled(0, a, b, c), d);
  }

  lemma CutTo(n: nat, size: nat, high: nat, low: nat)
    requires low < size && n == size * high + low
    ensures n % size == low
  {
    RemainderIsUnique(n, size, high, low);
  }

  lemma ZerosAndOnes(a: Byte, b: Byte, c: Byte, d: Byte)
    ensures a == 0 && b == 0 && c == 1 <==> 256 <= Spelled(a, b, c, d) < 512
    ensures b == 0 && c == 0 && d == 1 <==> Spelled(0, b, c, d) == 1
    ensures c == 0 && d == 0 <==> Spelled(0, 0, c, d) == 0
  {
    if a > 0 {
      assert Spelled(a, b, c, d) >= Spelled(1, 0, 0, 0);
    } else if b > 0 {
      assert Spelled(a, b, c, d) >= Spelled(0, 1, 0, 0);
    }
    if b > 0 {
      assert Spelled(0, b, c, d) >= Spelled(0, 1, 0, 0);
    }
  }

  /** A unit behind its length: the byte read, if any, is noted, and the rest passed over. */
  lemma ScanPrefixedNal(s: seq<Byte>, p: nat, nal: seq<Byte>, rest: seq<Byte>)
    requires WellFormedNal(nal) && |nal| < 0x1_0000_0000
    requires p <= |s| && s[p..] == BigEndian(|nal|, 4) + nal + rest
    ensures
      var next := p + 4 + |nal|;
      && next <= |s| && s[next..] == rest
      && ScanStartCodes(s, p)
         == if Misleads(nal) then Scan(true, MisleadsToIdr(nal) || ScanStartCodes(s, next).foundIdr)
            else ScanStartCodes(s, next)
  {
    NalAt(s, p, BigEndian(|nal|, 4), nal, rest);
    assert Pow256(4) == 0x1_0000_0000;
    BigEndianReadsBack(|nal|, 4);
    FourBytes(s[p..p + 4]);
    LowBytes(|nal|, s[p], s[p + 1], s[p + 2], s[p + 3]);
    ZerosAndOnes(s[p], s[p + 1], s[p + 2], s[p + 3]);
    NoCodeInside(s, p + 4, nal);
    CodesAtLength(s, p, nal);
  }

  /** The same, given where the length bytes are zero and one. */
  lemma CodesAtLength(s: seq<Byte>, p: nat, nal: seq<Byte>)
    requires nal != [] && p + 4 + |nal| <= |s|
    requires s[p] == 0 && s[p + 1] == 0 && s[p + 2] == 1 <==> 256 <= |nal| < 512
    requires s[p + 1] == 0 && s[p + 2] == 0 && s[p + 3] == 1 <==> |nal| % 0x100_0000 == 1
    requires s[p + 2] == 0 && s[p + 3] == 0 <==> |nal| % 0x1_0000 == 0
    requires s[p + 3] == |nal| % 256
    requires forall k | 0 <= k < |nal| :: s[p + 4 + k] == nal[k]
    requires forall k | p + 4 <= k < p + 4 + |nal| :: !StartCode3(s, k) && !StartCode4(s, k)
    ensures
      var next := p + 4 + |nal|;
      ScanStartCodes(s, p)
      == if Misleads(nal) then Scan(true, MisleadsToIdr(nal) || ScanStartCodes(s, next).foundIdr)
         else ScanStartCodes(s, next)
  {
    var next := p + 4 + |nal|;
    assert s[p + 4 + 0] == nal[0];
    assert |nal| > 1 ==> s[p + 4 + 1] == nal[1];
    assert |nal| > 2 ==> s[p + 4 + 2] == nal[2];
    if StartCode3(s, p) {
      ReadOneCode(s, p, p, next);
    } else if StartCode3(s, p + 1) {
      ReadOneCode(s, p, p + 1, next);
    } else if StartCode3(s, p + 2) {
      ReadOneCode(s, p, p + 2, next);
    } else if StartCode3(s, p + 3) {
      ReadOneCode(s, p, p + 3, next);
    } else {
      forall k | p <= k < p + 4 ensures !StartCode3(s, k) && !StartCode4(s, k) {
        assert StartCode4(s, k) ==> StartCode3(s, k + 1);
      }
      PassOver(s, p, next);
    }
  }

  /** From p the first start code is at `code`; no other begins between it and `next`, but
      for one right behind it, which is not read. */
  lemma ReadOneCode(s: seq<Byte>, p: nat, code: nat, next: nat)
    requires p <= code <= p + 3 && code + 4 <= next <= |s| && p + 4 <= next && StartCode3(s, code)
    requires forall k | p <= k < code :: !StartCode3(s, k)
    requires forall k | p + 4 <= k < next :: !StartCode3(s, k) && !StartCode4(s, k)
    ensures ScanStartCodes(s, p)
            == Scan(true, NalType(s[code + 3]) == NAL_IDR || ScanStartCodes(s, next).foundIdr)
  {
    var first := if code > p && s[code - 1] == 0 then code - 1 else code;
    forall k | p <= k < first ensures !StartCode3(s, k) && !StartCode4(s, k) {
      assert StartCode4(s, k) ==> StartCode3(s, k + 1);
    }
    PassOver(s, p, first);
    PassOver(s, code + 4, next);
  }

  lemma {:induction false} ScanPrefixed(s: seq<Byte>, p: nat, nals: seq<seq<Byte>>)
    requires FitPrefix(nals) && p <= |s| && s[p..] == Prefixed(nals)
    requires forall nal <- nals :: WellFormedNal(nal)
    ensures ScanStartCodes(s, p) == Scan(Any(nals, Misleads), Any(nals, MisleadsToIdr))
    decreases |nals|
  {
    if nals == [] {
    } else {
      var nal, rest := nals[0], nals[1..];
      assert WellFormedNal(nal) && FitPrefix(rest);
      ScanPrefixedNal(s, p, nal, Prefixed(rest));
      ScanPrefixed(s, p + 4 + |nal|, rest);
      AnySplits(nals, Misleads);
      AnySplits(nals, MisleadsToIdr);
    }
  }

  /** On a stream of well-formed units the answer is right exactly when no unit misleads the
      scanner, or one of them to an IDR type just when some unit is an IDR slice. */
  lemma WellFormedNalsAreReadRightExactlyWhen(nals: seq<seq<Byte>>)
    requires FitPrefix(nals) && forall nal <- nals :: WellFormedNal(nal)
    ensures var s := Prefixed(nals);
            && (NoStartCode(s) <==> !Any(nals, Misleads))
            && (ContainsIdr(s) <==> if Any(nals, Misleads) then Any(nals, MisleadsToIdr) else SomeIdr(nals))
            && ((ContainsIdr(s) <==> SomeIdr(nals)) <==>
                  !Any(nals, Misleads) || (Any(nals, MisleadsToIdr) <==> SomeIdr(nals)))
  {
    var s := Prefixed(nals);
    assert s[0..] == s;
    ScanMeans(s, 0);
    ScanPrefixed(s, 0, nals);
    LengthsFindNals(s, 0, nals);
  }

  /** A lone unit whose length ends in 0, 0, 1 reads as a start code in front of its own type. */
  lemma LengthThatLeadsToTheType(nal: seq<Byte>)
    requires WellFormedNal(nal) && |nal| < 0x1_0000_0000 && |nal| % 0x100_0000 == 1
    ensures FitPrefix([nal]) && !NoStartCode(Prefixed([nal])) && (ContainsIdr(Prefixed([nal])) <==> IsIdr(nal))
  {
    assert |nal| < 256 || |nal| >= 512;
    assert ByteRead(nal) == Some(nal[0]);
    WellFormedNalsAreReadRightExactlyWhen([nal]);
    assert nal in [nal];
  }

  /** A 256-byte IDR unit has a length prefix that reads as a start code, and is missed. */
  lemma LengthThatLooksLikeAStartCode(tail: seq<Byte>)
    requires |tail| == 255 && forall k | 0 <= k < |tail| :: tail[k] != 0
    ensures var nal := [0x65] + tail;
            FitPrefix([nal]) && SomeIdr([nal]) && !ContainsIdr(Prefixed([nal]))
  {
    var nal: seq<Byte> := [0x65] + tail;
    assert [nal][1..] == [] && Prefixed([]) == [];
    assert [nal][0] == nal && nal in [nal] && IsIdr(nal);
    Prefix256();
    assert Prefixed([nal]) == [0, 0, 1, 0] + nal;
    MisreadPrefix(nal);
  }

  lemma Prefix256()
    ensures BigEndian(256, 4) == [0, 0, 1, 0]
  {
    assert BigEndian(256, 1) == [0] && BigEndian(1, 1) == [1] && BigEndian(0, 2) == [0, 0];
  }

  lemma MisreadPrefix(nal: seq<Byte>)
    requires forall k | 0 <= k < |nal| :: nal[k] != 0
    ensures !ContainsIdr([0, 0, 1, 0] + nal)
  {
    var s: seq<Byte> := [0, 0, 1, 0] + nal;
    assert StartCode3(s, 0) && !StartCode4(s, 0);
    assert forall k: nat | 4 <= k < |s| :: s[k] != 0;
    PassOver(s, 4, |s|);
  }
}
