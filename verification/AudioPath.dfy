/** Audio end to end: what the browser decodes is what the emulator produced. */
module AudioPath {
  import opened Wrappers
  import opened Bytes
  import Audio
  import AudioPacket

  /** Base64 as the two ends use it: text without the separator that decodes to the bytes
      it was made from. */
  ghost predicate IsBase64(encode: seq<Byte> -> string, decode: string -> seq<Byte>) {
    && (forall b: seq<Byte> :: decode(encode(b)) == b)
    && (forall b: seq<Byte> :: AudioPacket.NoBar(encode(b)))
    && (forall b: seq<Byte> :: b != [] ==> encode(b) != [])
  }

  /** The samples the browser gets out of a packet. */
  function Heard(packet: string, fallbackRate: int, decode: string -> seq<Byte>): seq<Audio.Sample> {
    match AudioPacket.ParsePacket(packet, fallbackRate)
    case None => []
    case Some(p) =>
      var b := decode(p.encoded);
      if |b| % 2 == 0 then Audio.SamplesOf(b) else []
  }

  lemma ChunkIsHeard(chunk: seq<Audio.Sample>, rate: nat, fallbackRate: int,
                     encode: seq<Byte> -> string, decode: string -> seq<Byte>)
    requires IsBase64(encode, decode) && chunk != []
    ensures Heard(AudioPacket.PrintPacket(rate, encode(Audio.BytesOf(chunk))), fallbackRate, decode) == chunk
  {
    var b := Audio.BytesOf(chunk);
    AudioPacket.PacketRoundTrip(rate, encode(b), fallbackRate);
    Audio.BytesDecode(chunk);
  }

  /** The packets for a list of chunks, each printed at the rate of the moment. */
  function PacketsFor(chunks: seq<seq<Audio.Sample>>, rates: seq<nat>, encode: seq<Byte> -> string): seq<string>
    requires |rates| == |chunks|
  {
    if chunks == [] then []
    else
      var packet := AudioPacket.PrintPacket(rates[0], encode(Audio.BytesOf(chunks[0])));
      [packet] + PacketsFor(chunks[1..], rates[1..], encode)
  }

  function AllHeard(packets: seq<string>, fallbackRate: int, decode: string -> seq<Byte>): seq<Audio.Sample> {
    if packets == [] then [] else Heard(packets[0], fallbackRate, decode) + AllHeard(packets[1..], fallbackRate, decode)
  }

  lemma {:induction false} ChunksAreHeard(chunks: seq<seq<Audio.Sample>>, rates: seq<nat>, fallbackRate: int,
                                          encode: seq<Byte> -> string, decode: string -> seq<Byte>)
    requires IsBase64(encode, decode) && |rates| == |chunks| && forall c <- chunks :: c != []
    ensures AllHeard(PacketsFor(chunks, rates, encode), fallbackRate, decode) == Audio.Flatten(chunks)
  {
    if chunks == [] {
    } else {
      var packets := PacketsFor(chunks, rates, encode);
      assert chunks[0] in chunks && forall c <- chunks[1..] :: c in chunks;
      assert packets[1..] == PacketsFor(chunks[1..], rates[1..], encode);
      ChunkIsHeard(chunks[0], rates[0], fallbackRate, encode, decode);
      ChunksAreHeard(chunks[1..], rates[1..], fallbackRate, encode, decode);
    }
  }

  /** After any run of frames, the samples decoded from all the packets printed, followed by
      those still pending at the worker, are the samples accepted, one for one. */
  lemma PrintedPacketsCarryTheAcceptedStream(run: seq<Audio.Input>, rates: seq<nat>, fallbackRate: int,
                                             encode: seq<Byte> -> string, decode: string -> seq<Byte>)
    requires IsBase64(encode, decode) && |rates| == |Audio.After(run).chunks|
    ensures var c := Audio.After(run);
            AllHeard(PacketsFor(c.chunks, rates, encode), fallbackRate, decode) + c.pending == Audio.Accepted(run)
  {
    var c := Audio.After(run);
    Audio.AudioIsConserved(run);
    ChunksAreHeard(c.chunks, rates, fallbackRate, encode, decode);
  }

  /** The items for which `sent` holds. */
  function Sent<T>(items: seq<T>, sent: seq<bool>): (kept: seq<T>)
    requires |sent| == |items|
    ensures forall x <- kept :: x in items
  {
    if items == [] then []
    else (if sent[0] then [items[0]] else []) + Sent(items[1..], sent[1..])
  }

  lemma {:induction false} SentPackets(chunks: seq<seq<Audio.Sample>>, rates: seq<nat>, sent: seq<bool>,
                                       encode: seq<Byte> -> string)
    requires |rates| == |sent| == |chunks|
    ensures |PacketsFor(chunks, rates, encode)| == |chunks| && |Sent(chunks, sent)| == |Sent(rates, sent)|
    ensures Sent(PacketsFor(chunks, rates, encode), sent) == PacketsFor(Sent(chunks, sent), Sent(rates, sent), encode)
  {
    if chunks == [] {
    } else {
      SentPackets(chunks[1..], rates[1..], sent[1..], encode);
      assert PacketsFor(chunks, rates, encode)[1..] == PacketsFor(chunks[1..], rates[1..], encode);
      var keptChunks, keptRates := Sent(chunks[1..], sent[1..]), Sent(rates[1..], sent[1..]);
      if sent[0] {
        assert Sent(chunks, sent)[1..] == keptChunks && Sent(rates, sent)[1..] == keptRates;
      } else {
        assert Sent(chunks, sent) == keptChunks && Sent(rates, sent) == keptRates;
      }
    }
  }

  /** Whichever packets a session is sent, while it has a channel and the channel has room,
      its browser hears exactly the chunks in them, whole and in order. */
  lemma SessionsHearTheChunksSentToThem(run: seq<Audio.Input>, rates: seq<nat>, sent: seq<bool>, fallbackRate: int,
                                        encode: seq<Byte> -> string, decode: string -> seq<Byte>)
    requires IsBase64(encode, decode) && |rates| == |sent| == |Audio.After(run).chunks|
    ensures var c := Audio.After(run);
            && |PacketsFor(c.chunks, rates, encode)| == |sent|
            && AllHeard(Sent(PacketsFor(c.chunks, rates, encode), sent), fallbackRate, decode)
               == Audio.Flatten(Sent(c.chunks, sent))
  {
    var c := Audio.After(run);
    Audio.AudioIsConserved(run);
    SentPackets(c.chunks, rates, sent, encode);
    ChunksAreHeard(Sent(c.chunks, sent), Sent(rates, sent), fallbackRate, encode, decode);
  }
}
