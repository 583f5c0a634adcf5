/** The text packet that carries an audio chunk, as the worker prints it and as the
    browser reads it. Payloads are base64 text, so they never contain the separator. */
module AudioPacket {
  import opened Wrappers
  import opened Decimal

  const KIND: string := "audio"
  const VERSION: nat := 1
  const CHANNELS: nat := 2
  const LEGACY_PREFIX: string := "audio-pcm16le|"

  datatype Packet = Packet(sampleRate: int, channels: int, encoded: string)

  /** A field, the separator, and what follows. */
  function Bar(field: string, rest: string): string {
    field + "|" + rest
  }

  function PrintPacket(sampleRate: nat, encoded: string): string {
    Bar(KIND, Bar("v=" + Print(VERSION), Bar("sr=" + Print(sampleRate), Bar("ch=" + Print(CHANNELS), encoded))))
  }

  /** `raw.split("|")`. */
  function Split(s: string): (parts: seq<string>)
    ensures parts != []
  {
    if s == [] then [[]]
    else
      var rest := Split(s[1..]);
      if s[0] == '|' then [[]] + rest else [[s[0]] + rest[0]] + rest[1..]
  }

  /** What the fields between kind and payload have said so far. */
  datatype Fields = Fields(version: Option<int>, sampleRate: int, channels: int)

  function ReadField(f: Fields, field: string): Fields {
    if "v=" <= field then f.(version := ParseInt(field[2..]))
    else if "sr=" <= field then
      match ParseInt(field[3..]) case Some(rate) => if rate > 0 then f.(sampleRate := rate) else f case None => f
    else if "ch=" <= field then
      match ParseInt(field[3..]) case Some(n) => if n > 0 then f.(channels := n) else f case None => f
    else f
  }

  function ReadFields(f: Fields, fields: seq<string>): Fields {
    if fields == [] then f else ReadField(ReadFields(f, fields[..|fields| - 1]), fields[|fields| - 1])
  }

  function ParsePacket(raw: string, fallbackSampleRate: int): Option<Packet> {
    if KIND + "|" <= raw then
      var parts := Split(raw);
      if |parts| < 5 || parts[|parts| - 1] == [] then None
      else
        var f := ReadFields(Fields(None, fallbackSampleRate, CHANNELS), parts[1..|parts| - 1]);
        if f.version != Some(VERSION) then None
        else Some(Packet(f.sampleRate, f.channels, parts[|parts| - 1]))
    else ParseLegacyPacket(raw, fallbackSampleRate)
  }

  /** `s.replace(pattern, "")`: without the first occurrence, if there is one. */
  function RemoveFirst(s: string, pattern: string): string {
    if pattern <= s then s[|pattern|..]
    else if s == [] then []
    else [s[0]] + RemoveFirst(s[1..], pattern)
  }

  function ParseLegacyPacket(raw: string, fallbackSampleRate: int): Option<Packet> {
    if !(LEGACY_PREFIX <= raw) then None
    else
      var parts := Split(RemoveFirst(raw, LEGACY_PREFIX));
      if |parts| < 2 || parts[1] == [] then None
      else
        var sampleRate :=
          match ParseInt(RemoveFirst(parts[0], "sr="))
          case Some(rate) => if rate > 0 then rate else fallbackSampleRate
          case None => fallbackSampleRate;
        Some(Packet(sampleRate, CHANNELS, parts[1]))
  }

  method ParseGameAudioPacket(raw: string, fallbackSampleRate: int) returns (packet: Option<Packet>)
    ensures packet == ParsePacket(raw, fallbackSampleRate)
  {
    if raw == [] {
      return None;
    }
    if KIND + "|" <= raw {
      var parts := Split(raw);
      if |parts| < 5 {
        return None;
      }
      var payload := parts[|parts| - 1];
      if payload == [] {
        return None;
      }
      var version: Option<int>, sampleRate, channels: int := None, fallbackSampleRate, CHANNELS;
      var fields := parts[1..|parts| - 1];
      for i := 0 to |fields|
        invariant Fields(version, sampleRate, channels)
                  == ReadFields(Fields(None, fallbackSampleRate, CHANNELS), fields[..i])
      {
        var field := fields[i];
        assert fields[..i + 1][..i] == fields[..i];
        if "v=" <= field {
          version := ParseInt(field[2..]);
        } else if "sr=" <= field {
          var parsed := ParseInt(field[3..]);
          if parsed != None && parsed.value > 0 {
            sampleRate := parsed.value;
          }
        } else if "ch=" <= field {
          var parsed := ParseInt(field[3..]);
          if parsed != None && parsed.value > 0 {
            channels := parsed.value;
          }
        }
      }
      assert fields[..|fields|] == fields;
      if version != Some(VERSION) {
        return None;
      }
      return Some(Packet(sampleRate, channels, payload));
    }
    packet := ParseLegacyPacket(raw, fallbackSampleRate);
  }

  // --------------------------------------------------------------- round trip

  ghost predicate NoBar(s: string) {
    '|' !in s
  }

  lemma {:induction false} SplitAtBar(a: string, rest: string)
    requires NoBar(a)
    ensures Split(Bar(a, rest)) == [a] + Split(rest)
    ensures Split(a) == [a]
  {
    var s := Bar(a, rest);
    if a == [] {
      assert s[1..] == rest;
    } else {
      assert s[1..] == Bar(a[1..], rest);
      SplitAtBar(a[1..], rest);
      assert [a[0]] + a[1..] == a;
    }
  }

  lemma NumeralsHaveNoBar(n: nat, tag: string)
    requires NoBar(tag)
    ensures NoBar(tag + Print(n))
  {
    assert forall c <- Print(n) :: IsDigit(c);
  }

  lemma SplitsIntoThree(a: string, b: string, c: string, rest: string)
    requires NoBar(a) && NoBar(b) && NoBar(c)
    ensures Split(Bar(a, Bar(b, Bar(c, rest)))) == [a, b, c] + Split(rest)
  {
    SplitAtBar(c, rest);
    SplitAtBar(b, Bar(c, rest));
    SplitAtBar(a, Bar(b, Bar(c, rest)));
    assert [a] + ([b] + ([c] + Split(rest))) == [a, b, c] + Split(rest);
  }

  lemma SplitsIntoFive(a: string, b: string, c: string, d: string, e: string)
    requires NoBar(a) && NoBar(b) && NoBar(c) && NoBar(d) && NoBar(e)
    ensures Split(Bar(a, Bar(b, Bar(c, Bar(d, e))))) == [a, b, c, d, e]
  {
    SplitsIntoThree(a, b, c, Bar(d, e));
    SplitAtBar(d, e);
    SplitAtBar(e, []);
  }

  lemma SplitsIntoFields(sampleRate: nat, encoded: string)
    requires NoBar(encoded)
    ensures Split(PrintPacket(sampleRate, encoded))
            == [KIND, "v=" + Print(VERSION), "sr=" + Print(sampleRate), "ch=" + Print(CHANNELS), encoded]
  {
    NumeralsHaveNoBar(VERSION, "v=");
    NumeralsHaveNoBar(sampleRate, "sr=");
    NumeralsHaveNoBar(CHANNELS, "ch=");
    SplitsIntoFive(KIND, "v=" + Print(VERSION), "sr=" + Print(sampleRate), "ch=" + Print(CHANNELS), encoded);
  }

  lemma VersionReadsBack(f: Fields, n: nat)
    ensures ReadField(f, "v=" + Print(n)) == f.(version := Some(n))
  {
    ParseIntReadsBack(n);
    assert ("v=" + Print(n))[2..] == Print(n);
  }

  lemma SampleRateReadsBack(f: Fields, n: nat)
    ensures ReadField(f, "sr=" + Print(n)) == if n > 0 then f.(sampleRate := n) else f
  {
    var field := "sr=" + Print(n);
    ParseIntReadsBack(n);
    assert field[3..] == Print(n) && field[0] == 's';
  }

  lemma ChannelsReadBack(f: Fields, n: nat)
    ensures ReadField(f, "ch=" + Print(n)) == if n > 0 then f.(channels := n) else f
  {
    var field := "ch=" + Print(n);
    ParseIntReadsBack(n);
    assert field[3..] == Print(n) && field[0] == 'c';
  }

  lemma ReadOneMore(f: Fields, fields: seq<string>, field: string)
    ensures ReadFields(f, fields + [field]) == ReadField(ReadFields(f, fields), field)
  {
    assert (fields + [field])[..|fields|] == fields;
  }

  /** Parsing a printed packet gives back the rate, two channels and the payload; a zero
      rate, which means none is known, gives the reader's fallback. */
  lemma PacketRoundTrip(sampleRate: nat, encoded: string, fallback: int)
    requires NoBar(encoded) && encoded != []
    ensures ParsePacket(PrintPacket(sampleRate, encoded), fallback)
            == Some(Packet(if sampleRate > 0 then sampleRate else fallback, CHANNELS, encoded))
  {
    var raw := PrintPacket(sampleRate, encoded);
    var v, sr, ch := "v=" + Print(VERSION), "sr=" + Print(sampleRate), "ch=" + Print(CHANNELS);
    SplitsIntoFields(sampleRate, encoded);
    assert Split(raw)[1..4] == [v, sr, ch];
    FieldsReadTogether(sampleRate, fallback);
    StartsWithKind(sampleRate, encoded);
  }

  lemma StartsWithKind(sampleRate: nat, encoded: string)
    ensures KIND + "|" <= PrintPacket(sampleRate, encoded)
  {
  }

  lemma FieldsReadTogether(sampleRate: nat, fallback: int)
    ensures ReadFields(Fields(None, fallback, CHANNELS),
                       ["v=" + Print(VERSION), "sr=" + Print(sampleRate), "ch=" + Print(CHANNELS)])
            == Fields(Some(VERSION), if sampleRate > 0 then sampleRate else fallback, CHANNELS)
  {
    var v, sr, ch := "v=" + Print(VERSION), "sr=" + Print(sampleRate), "ch=" + Print(CHANNELS);
    var f0 := Fields(None, fallback, CHANNELS);
    var f1 := f0.(version := Some(VERSION));
    var f2 := if sampleRate > 0 then f1.(sampleRate := sampleRate) else f1;
    VersionReadsBack(f0, VERSION);
    SampleRateReadsBack(f1, sampleRate);
    ChannelsReadBack(f2, CHANNELS);
    ReadOneMore(f0, [], v);
    ReadOneMore(f0, [v], sr);
    ReadOneMore(f0, [v, sr], ch);
    assert [] + [v] == [v] && [v] + [sr] == [v, sr] && [v, sr] + [ch] == [v, sr, ch];
  }

  /** What the packet looks like. */
  lemma PrintedForm(sampleRate: nat, encoded: string)
    ensures PrintPacket(sampleRate, encoded)
            == Bar("audio", Bar("v=1", Bar("sr=" + Print(sampleRate), Bar("ch=2", encoded))))
  {
    assert Print(1) == "1" && Print(2) == "2";
  }

  /** The older form is still read: two channels, and the rate or else the reader's fallback. */
  lemma LegacyRoundTrip(sampleRate: nat, encoded: string, fallback: int)
    requires NoBar(encoded) && encoded != []
    ensures ParsePacket("audio-pcm16le|sr=" + Print(sampleRate) + "|" + encoded, fallback)
            == Some(Packet(if sampleRate > 0 then sampleRate else fallback, 2, encoded))
  {
    var field := "sr=" + Print(sampleRate);
    var raw := "audio-pcm16le|sr=" + Print(sampleRate) + "|" + encoded;
    LegacyStarts(sampleRate, encoded);
    NumeralsHaveNoBar(sampleRate, "sr=");
    SplitAtBar(field, encoded);
    SplitAtBar(encoded, []);
    assert field[3..] == Print(sampleRate) && "sr=" <= field;
    ParseIntReadsBack(sampleRate);
  }

  lemma LegacyStarts(sampleRate: nat, encoded: string)
    ensures var raw := "audio-pcm16le|sr=" + Print(sampleRate) + "|" + encoded;
            && LEGACY_PREFIX <= raw && !(KIND + "|" <= raw)
            && RemoveFirst(raw, LEGACY_PREFIX) == Bar("sr=" + Print(sampleRate), encoded)
  {
    var raw := "audio-pcm16le|sr=" + Print(sampleRate) + "|" + encoded;
    assert raw[5] == '-' && (KIND + "|")[5] == '|';
    assert raw[|LEGACY_PREFIX|..] == Bar("sr=" + Print(sampleRate), encoded);
  }
}
