/** Audio from the emulator to the browser: cutting the sample stream into 20 ms chunks of
    little-endian bytes, and the text packet that carries each one. */
module Audio {
  import opened Bytes

  type Sample = x: int | -0x8000 <= x < 0x8000

  // ------------------------------------------------------ samples and bytes

  function LittleEndian(x: Sample): (b: seq<Byte>)
    ensures |b| == 2
  {
    var u := if x < 0 then x + 0x1_0000 else x;
    [u % 256, u / 256]
  }

  function BytesOf(samples: seq<Sample>): (b: seq<Byte>)
    ensures |b| == 2 * |samples|
  {
    if samples == [] then [] else BytesOf(samples[..|samples| - 1]) + LittleEndian(samples[|samples| - 1])
  }

  function SampleFrom(lo: Byte, hi: Byte): Sample {
    var l: nat, h: nat := lo, hi;
    var u := l + 256 * h;
    if u >= 0x8000 then u - 0x1_0000 else u
  }

  function SamplesOf(b: seq<Byte>): (samples: seq<Sample>)
    requires |b| % 2 == 0
    ensures |samples| == |b| / 2
  {
    if b == [] then [] else SamplesOf(b[..|b| - 2]) + [SampleFrom(b[|b| - 2], b[|b| - 1])]
  }

  /** The bytes sent decode to the samples they came from. */
  lemma {:induction false} BytesDecode(samples: seq<Sample>)
    ensures SamplesOf(BytesOf(samples)) == samples
  {
    if samples == [] {
    } else {
      var front, last := samples[..|samples| - 1], samples[|samples| - 1];
      BytesDecode(front);
      var b := BytesOf(samples);
      assert b[..|b| - 2] == BytesOf(front);
      assert SampleFrom(LittleEndian(last)[0], LittleEndian(last)[1]) == last;
    }
  }

  /** The bytes of each sample are where they belong: two's complement, the low byte first. */
  lemma {:induction false} BytesAt(samples: seq<Sample>, i: nat)
    requires i < |samples|
    ensures var lo: int, hi: int, x: int := BytesOf(samples)[2 * i], BytesOf(samples)[2 * i + 1], samples[i];
            lo + 256 * hi == if x < 0 then x + 0x1_0000 else x
  {
    var n := |samples| - 1;
    var front := BytesOf(samples[..n]);
    assert BytesOf(samples) == front + LittleEndian(samples[n]);
    if i < n {
      BytesAt(samples[..n], i);
      assert BytesOf(samples)[2 * i] == front[2 * i] && BytesOf(samples)[2 * i + 1] == front[2 * i + 1];
    }
  }

  // -------------------------------------------------------------- re-chunking

  const FRAME_MS: nat := 20

  /** Samples in a chunk: two channels of 20 ms each, rounded up to a whole sample. */
  function Required(sampleRate: nat): (n: nat)
    ensures n >= 2 && n % 2 == 0
  {
    var rate := if sampleRate == 0 then 1 else sampleRate;
    2 * ((rate * FRAME_MS + 999) / 1000)
  }

  /** 20 ms rounded up: the fewest samples per channel that last at least 20 ms. */
  lemma RequiredLastsTwentyMilliseconds(sampleRate: nat)
    requires sampleRate > 0
    ensures var perChannel := Required(sampleRate) / 2;
            (perChannel - 1) * 1000 < sampleRate * FRAME_MS <= perChannel * 1000
  {
  }

  datatype Chunked = Chunked(chunks: seq<seq<Sample>>, pending: seq<Sample>)

  function Rechunk(pending: seq<Sample>, required: nat): Chunked
    requires required > 0
  {
    if |pending| < required then Chunked([], pending)
    else var rest := Rechunk(pending[required..], required); rest.(chunks := [pending[..required]] + rest.chunks)
  }

  predicate Accepts(samples: seq<Sample>) {
    samples != [] && |samples| % 2 == 0
  }

  class AudioSender {
    var pending: seq<Sample>

    constructor ()
      ensures pending == []
    {
      pending := [];
    }

    /** One frame from the emulator; returns the payloads to broadcast. */
    method HandleFrame(samples: seq<Sample>, sampleRate: nat) returns (payloads: seq<seq<Byte>>)
      modifies this
      ensures
        if !Accepts(samples) then payloads == [] && pending == old(pending)
        else
          var c := Rechunk(old(pending) + samples, Required(sampleRate));
          pending == c.pending && payloads == BytesOfAll(c.chunks)
    {
      payloads := [];
      if samples == [] {
        return;
      }
      if |samples| % 2 == 1 {
        return;
      }
      pending := pending + samples;
      var required := Required(sampleRate);
      ghost var total := Rechunk(pending, required);
      ghost var sent: seq<seq<Sample>> := [];
      while |pending| >= required
        invariant total.chunks == sent + Rechunk(pending, required).chunks
        invariant total.pending == Rechunk(pending, required).pending
        invariant payloads == BytesOfAll(sent)
      {
        ghost var chunk, rest := pending[..required], Rechunk(pending[required..], required).chunks;
        assert sent + ([chunk] + rest) == (sent + [chunk]) + rest;
        assert (sent + [chunk])[..|sent|] == sent;
        var payload := TakePayload(required);
        sent := sent + [chunk];
        payloads := payloads + [payload];
      }
      assert sent + [] == sent;
    }

    method TakePayload(required: nat) returns (payload: seq<Byte>)
      requires required <= |pending|
      modifies this
      ensures pending == old(pending)[required..] && payload == BytesOf(old(pending)[..required])
    {
      payload := [];
      for n := 0 to required
        invariant pending == old(pending)[n..]
        invariant payload == BytesOf(old(pending)[..n])
      {
        var sample := pending[0];
        pending := pending[1..];
        assert old(pending)[..n + 1][..n] == old(pending)[..n];
        payload := payload + LittleEndian(sample);
      }
    }
  }

  function BytesOfAll(chunks: seq<seq<Sample>>): (payloads: seq<seq<Byte>>)
    ensures |payloads| == |chunks|
  {
    if chunks == [] then [] else BytesOfAll(chunks[..|chunks| - 1]) + [BytesOf(chunks[|chunks| - 1])]
  }

  // ----------------------------------------------------------- conservation

  datatype Input = Input(samples: seq<Sample>, sampleRate: nat)

  function Flatten(chunks: seq<seq<Sample>>): seq<Sample> {
    if chunks == [] then [] else chunks[0] + Flatten(chunks[1..])
  }

  lemma {:induction false} FlattenAppends(a: seq<seq<Sample>>, b: seq<seq<Sample>>)
    ensures Flatten(a + b) == Flatten(a) + Flatten(b)
  {
    if a == [] {
      assert a + b == b;
    } else {
      assert (a + b)[1..] == a[1..] + b;
      FlattenAppends(a[1..], b);
    }
  }

  /** Everything emitted and still pending after a run of frames. */
  function After(run: seq<Input>): Chunked {
    if run == [] then Chunked([], [])
    else
      var before, input := After(run[..|run| - 1]), run[|run| - 1];
      if !Accepts(input.samples) then before
      else
        var c := Rechunk(before.pending + input.samples, Required(input.sampleRate));
        Chunked(before.chunks + c.chunks, c.pending)
  }

  /** The frames that are whole pairs, one after the other. */
  function Accepted(run: seq<Input>): seq<Sample> {
    if run == [] then []
    else
      var before, samples := Accepted(run[..|run| - 1]), run[|run| - 1].samples;
      if |samples| % 2 == 0 then before + samples else before
  }

  /** One channel of interleaved samples: 0 for left, 1 for right. */
  function Channel(samples: seq<Sample>, which: nat): seq<Sample>
    requires which < 2
  {
    if |samples| < 2 then [] else [samples[which]] + Channel(samples[2..], which)
  }

  lemma {:induction false} ChannelAppends(a: seq<Sample>, b: seq<Sample>, which: nat)
    requires which < 2 && |a| % 2 == 0
    ensures Channel(a + b, which) == Channel(a, which) + Channel(b, which)
  {
    if a == [] {
      assert a + b == b;
    } else {
      assert (a + b)[2..] == a[2..] + b;
      ChannelAppends(a[2..], b, which);
    }
  }

  function Channels(chunks: seq<seq<Sample>>, which: nat): seq<Sample>
    requires which < 2
  {
    if chunks == [] then [] else Channel(chunks[0], which) + Channels(chunks[1..], which)
  }

  lemma {:induction false} ChannelsOfPairs(chunks: seq<seq<Sample>>, which: nat)
    requires which < 2 && forall c <- chunks :: |c| % 2 == 0
    ensures Channels(chunks, which) == Channel(Flatten(chunks), which)
  {
    if chunks == [] {
    } else {
      ChannelsOfPairs(chunks[1..], which);
      assert chunks[0] in chunks;
      ChannelAppends(chunks[0], Flatten(chunks[1..]), which);
    }
  }

  lemma {:induction false} RechunkConserves(pending: seq<Sample>, required: nat)
    requires required > 0
    ensures var c := Rechunk(pending, required);
            Flatten(c.chunks) + c.pending == pending && |c.pending| < required
  {
    if |pending| >= required {
      var head, tail := pending[..required], pending[required..];
      var rest := Rechunk(tail, required);
      RechunkConserves(tail, required);
      assert ([head] + rest.chunks)[1..] == rest.chunks;
      Associate(head, Flatten(rest.chunks), rest.pending);
      assert pending == head + tail;
    }
  }

  ghost predicate AllOfLength(chunks: seq<seq<Sample>>, n: nat) {
    forall chunk <- chunks :: |chunk| == n
  }

  lemma {:induction false} RechunkLengths(pending: seq<Sample>, required: nat)
    requires required > 0
    ensures AllOfLength(Rechunk(pending, required).chunks, required)
    ensures required % 2 == 0 && |pending| % 2 == 0 ==> |Rechunk(pending, required).pending| % 2 == 0
  {
    if |pending| >= required {
      RechunkLengths(pending[required..], required);
    }
  }

  ghost predicate WholePairs(chunks: seq<seq<Sample>>) {
    forall chunk <- chunks :: chunk != [] && |chunk| % 2 == 0
  }

  lemma {:induction false} ChunksAreWhole(run: seq<Input>)
    ensures var c := After(run); |c.pending| % 2 == 0 && WholePairs(c.chunks)
  {
    if run == [] {
    } else {
      var before, input := After(run[..|run| - 1]), run[|run| - 1];
      ChunksAreWhole(run[..|run| - 1]);
      if Accepts(input.samples) {
        FrameKeepsPairs(before.pending, input);
      }
    }
  }

  lemma FrameKeepsPairs(pending: seq<Sample>, input: Input)
    requires |pending| % 2 == 0 && Accepts(input.samples)
    ensures var c := Rechunk(pending + input.samples, Required(input.sampleRate));
            |c.pending| % 2 == 0 && WholePairs(c.chunks)
  {
    var n := Required(input.sampleRate);
    assert |pending + input.samples| % 2 == 0;
    RechunkLengths(pending + input.samples, n);
    assert n > 0 && n % 2 == 0;
  }

  lemma {:induction false} SamplesAreConserved(run: seq<Input>)
    ensures var c := After(run); Flatten(c.chunks) + c.pending == Accepted(run)
  {
    if run == [] {
    } else {
      var before, input := After(run[..|run| - 1]), run[|run| - 1];
      SamplesAreConserved(run[..|run| - 1]);
      if Accepts(input.samples) {
        AcceptedFrameIsConserved(before, input);
      } else if input.samples == [] {
        assert Accepted(run) == Accepted(run[..|run| - 1]) + [];
      }
    }
  }

  /** Chunks emitted followed by samples pending are the frames accepted, sample for
      sample, and every chunk is a whole number of stereo pairs. */
  lemma AudioIsConserved(run: seq<Input>)
    ensures var c := After(run); Flatten(c.chunks) + c.pending == Accepted(run)
    ensures var c := After(run); |c.pending| % 2 == 0 && WholePairs(c.chunks)
  {
    SamplesAreConserved(run);
    ChunksAreWhole(run);
  }

  /** Every chunk lasts 20 ms, rounded up, at the rate of the very frame whose arrival cut
      it: those that frame k adds to the chunks of all frames before it. */
  lemma {:induction false} FramesCutTheirOwnChunks(run: seq<Input>, k: nat)
    requires k < |run|
    ensures var before, after := After(run[..k]).chunks, After(run[..k + 1]).chunks;
            && before <= after <= After(run).chunks
            && AllOfLength(after[|before|..], Required(run[k].sampleRate))
  {
    if k == |run| - 1 {
      assert run[..k + 1] == run;
      RechunkLengths(After(run[..k]).pending + run[k].samples, Required(run[k].sampleRate));
    } else {
      var front := run[..|run| - 1];
      FramesCutTheirOwnChunks(front, k);
      assert front[..k] == run[..k] && front[..k + 1] == run[..k + 1];
    }
  }

  lemma AcceptedFrameIsConserved(before: Chunked, input: Input)
    requires Accepts(input.samples)
    ensures
      var c := Rechunk(before.pending + input.samples, Required(input.sampleRate));
      Flatten(before.chunks + c.chunks) + c.pending == Flatten(before.chunks) + before.pending + input.samples
  {
    var c := Rechunk(before.pending + input.samples, Required(input.sampleRate));
    RechunkConserves(before.pending + input.samples, Required(input.sampleRate));
    ConservedBy(before, input.samples, c);
  }

  lemma ConservedBy(before: Chunked, samples: seq<Sample>, c: Chunked)
    requires Flatten(c.chunks) + c.pending == before.pending + samples
    ensures Flatten(before.chunks + c.chunks) + c.pending == Flatten(before.chunks) + before.pending + samples
  {
    FlattenAppends(before.chunks, c.chunks);
    Regroup(Flatten(before.chunks), Flatten(c.chunks), c.pending, before.pending, samples);
  }

  lemma Regroup(a: seq<Sample>, b: seq<Sample>, c: seq<Sample>, b': seq<Sample>, c': seq<Sample>)
    requires b + c == b' + c'
    ensures (a + b) + c == (a + b') + c'
  {
    Associate(a, b, c);
    Associate(a, b', c');
  }

  lemma Associate(a: seq<Sample>, b: seq<Sample>, c: seq<Sample>)
    ensures (a + b) + c == a + (b + c)
  {
  }

  /** Left stays left and right stays right: the channels of the chunks, followed by those
      of the pending samples, are the channels of the accepted stream. */
  lemma ChannelsAreNeverSwapped(run: seq<Input>, which: nat)
    requires which < 2
    ensures var c := After(run);
            Channels(c.chunks, which) + Channel(c.pending, which) == Channel(Accepted(run), which)
  {
    var c := After(run);
    AudioIsConserved(run);
    ChannelsOfPairs(c.chunks, which);
    FlattenOfPairs(c.chunks);
    ChannelAppends(Flatten(c.chunks), c.pending, which);
  }

  lemma {:induction false} FlattenOfPairs(chunks: seq<seq<Sample>>)
    requires forall c <- chunks :: |c| % 2 == 0
    ensures |Flatten(chunks)| % 2 == 0
  {
    if chunks == [] {
    } else {
      assert chunks[0] in chunks;
      FlattenOfPairs(chunks[1..]);
      assert |Flatten(chunks)| == |chunks[0]| + |Flatten(chunks[1..])|;
    }
  }
}
