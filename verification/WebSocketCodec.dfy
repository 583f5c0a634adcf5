/** WebSocket frames (section 5.2 of RFC 6455): printing a masked text frame, parsing
    from a growing buffer, and the receive loop. */
module WebSocketCodec {
  import opened Wrappers
  import opened Arithmetic
  import opened Bytes

  const OP_TEXT: nat := 1
  const OP_CLOSE: nat := 8
  const MAX_PAYLOAD: nat := 0xFFFF_FFFF_FFFF_FFFF

  datatype Frame = Frame(opcode: nat, payload: seq<Byte>)

  function XorByte(a: Byte, b: Byte): Byte {
    XorBound(a, b, 8);
    assert Pow2(8) == 256;
    Xor(a, b)
  }

  /** Masking (section 5.3 of RFC 6455). */
  function Masked(payload: seq<Byte>, mask: seq<Byte>): (r: seq<Byte>)
    requires |mask| == 4
    ensures |r| == |payload|
  {
    seq(|payload|, i requires 0 <= i < |payload| => XorByte(payload[i], mask[i % 4]))
  }

  lemma MaskingTwiceRestores(payload: seq<Byte>, mask: seq<Byte>)
    requires |mask| == 4
    ensures Masked(Masked(payload, mask), mask) == payload
  {
    forall i | 0 <= i < |payload| ensures XorByte(XorByte(payload[i], mask[i % 4]), mask[i % 4]) == payload[i] {
      XorCancels(payload[i], mask[i % 4]);
    }
  }

  // ---------------------------------------------------------------- printing

  /** The length field of a masked frame, in the shortest of its three forms. */
  function LengthField(n: nat): (r: seq<Byte>)
    requires n <= MAX_PAYLOAD
    ensures |r| == if n <= 125 then 1 else if n <= 0xFFFF then 3 else 9
  {
    if n <= 125 then [0x80 + n]
    else if n <= 0xFFFF then [0x80 + 126] + BigEndian(n, 2)
    else [0x80 + 127] + BigEndian(n, 8)
  }

  function TextFrame(payload: seq<Byte>, mask: seq<Byte>): seq<Byte>
    requires |payload| <= MAX_PAYLOAD && |mask| == 4
  {
    [0x81] + LengthField(|payload|) + mask + Masked(payload, mask)
  }

  method EncodeTextFrame(payload: seq<Byte>, mask: seq<Byte>) returns (frame: seq<Byte>)
    requires |payload| <= MAX_PAYLOAD && |mask| == 4
    ensures frame == TextFrame(payload, mask)
  {
    var header: seq<Byte> := [0x81];
    if |payload| <= 125 {
      header := header + [0x80 + |payload|];
    } else if |payload| <= 0xFFFF {
      header := header + [0x80 + 126];
      header := header + BigEndian(|payload|, 2);
    } else {
      header := header + [0x80 + 127];
      header := header + BigEndian(|payload|, 8);
    }
    assert header == [0x81] + LengthField(|payload|);
    header := header + mask;

    var masked := new Byte[|payload|](i requires 0 <= i < |payload| => payload[i]);
    for i := 0 to masked.Length
      invariant forall k | 0 <= k < masked.Length ::
                  masked[k] == if k < i then Masked(payload, mask)[k] else payload[k]
    {
      masked[i] := XorByte(masked[i], mask[i % 4]);
    }
    assert masked[..] == Masked(payload, mask);
    frame := header + masked[..];
  }

  // ----------------------------------------------------------------- parsing

  /** Where a frame's mask and payload start, and how long the payload is. */
  datatype Layout = Layout(maskAt: nat, dataAt: nat, length: nat)

  /** Reads the header, if all of it is there. */
  function ParseHeader(b: seq<Byte>): Option<Layout> {
    if |b| < 2 then None
    else
      var short := b[1] % 128;
      var wide := if short == 126 then 2 else if short == 127 then 8 else 0;
      if |b| < 2 + wide then None
      else
        var length := if wide == 0 then short else FromBigEndian(b[2..2 + wide]);
        var maskAt := 2 + wide;
        if b[1] < 128 then Some(Layout(maskAt, maskAt, length))
        else if |b| < maskAt + 4 then None
        else Some(Layout(maskAt, maskAt + 4, length))
  }

  function FrameAt(b: seq<Byte>, h: Layout): Frame
    requires h.maskAt + 4 == h.dataAt || h.maskAt == h.dataAt
    requires 0 < h.dataAt && h.dataAt + h.length <= |b|
  {
    var data := b[h.dataAt..h.dataAt + h.length];
    Frame(b[0] % 16, if h.dataAt == h.maskAt then data else Masked(data, b[h.maskAt..h.dataAt]))
  }

  /** The frame at the front of the buffer and what follows it, or nothing yet. */
  function ParseFrame(b: seq<Byte>): (r: (Option<Frame>, seq<Byte>))
    ensures r.0 == None ==> r.1 == b
    ensures r.0 != None ==> |r.1| + 2 <= |b|
  {
    match ParseHeader(b)
    case None => (None, b)
    case Some(h) =>
      var end := h.dataAt + h.length;
      if |b| < end then (None, b) else (Some(FrameAt(b, h)), b[end..])
  }

  /** Bytes that arrive later do not change a header that is already complete. */
  lemma HeaderIsStable(b: seq<Byte>, more: seq<Byte>)
    requires ParseHeader(b) != None
    ensures ParseHeader(b + more) == ParseHeader(b)
  {
    var c := b + more;
    assert c[1] == b[1];
    assert |b| >= 4 ==> c[2..4] == b[2..4];
    assert |b| >= 10 ==> c[2..10] == b[2..10];
  }

  lemma HeaderGivesFrame(b: seq<Byte>, h: Layout)
    requires ParseHeader(b) == Some(h) && h.dataAt + h.length <= |b|
    ensures ParseFrame(b) == (Some(FrameAt(b, h)), b[h.dataAt + h.length..])
  {
  }

  lemma FrameHasHeader(b: seq<Byte>) returns (h: Layout)
    requires ParseFrame(b).0 != None
    ensures ParseHeader(b) == Some(h) && 2 <= h.dataAt && h.dataAt + h.length <= |b|
    ensures h.maskAt + 4 == h.dataAt || h.maskAt == h.dataAt
    ensures ParseFrame(b) == (Some(FrameAt(b, h)), b[h.dataAt + h.length..])
  {
    h := ParseHeader(b).value;
  }

  /** ... nor a frame that is already complete. */
  lemma FrameIsStable(b: seq<Byte>, more: seq<Byte>)
    requires ParseFrame(b).0 != None
    ensures ParseFrame(b + more) == (ParseFrame(b).0, ParseFrame(b).1 + more)
  {
    var h := FrameHasHeader(b);
    HeaderIsStable(b, more);
    HeaderGivesFrame(b + more, h);
    FrameAtIsStable(b, more, h);
    CutThenAppend(b, more, h.dataAt + h.length);
  }

  lemma CutThenAppend(b: seq<Byte>, more: seq<Byte>, k: nat)
    requires k <= |b|
    ensures (b + more)[k..] == b[k..] + more
  {
  }

  lemma FrameAtIsStable(b: seq<Byte>, more: seq<Byte>, h: Layout)
    requires h.maskAt + 4 == h.dataAt || h.maskAt == h.dataAt
    requires 0 < h.dataAt && h.dataAt + h.length <= |b|
    ensures FrameAt(b + more, h) == FrameAt(b, h)
  {
    var c := b + more;
    assert c[h.dataAt..h.dataAt + h.length] == b[h.dataAt..h.dataAt + h.length];
    assert h.dataAt != h.maskAt ==> c[h.maskAt..h.dataAt] == b[h.maskAt..h.dataAt];
  }

  /** A prefix of a buffer parses exactly when it reaches the end of the first frame. */
  lemma PrefixParsesExactlyWhen(b: seq<Byte>, k: nat)
    requires ParseFrame(b).0 != None && k <= |b|
    ensures ParseFrame(b[..k]).0 != None <==> k >= |b| - |ParseFrame(b).1|
    ensures ParseFrame(b[..k]).0 == None ==> ParseFrame(b[..k]).1 == b[..k]
  {
    var p := b[..k];
    var h := FrameHasHeader(b);
    assert p + b[k..] == b;
    assert k >= 2 ==> p[1] == b[1];
    if ParseHeader(p) != None {
      HeaderIsStable(p, b[k..]);
    }
  }

  lemma LengthFieldReadsBack(payload: seq<Byte>, mask: seq<Byte>, rest: seq<Byte>)
    requires |payload| <= MAX_PAYLOAD && |mask| == 4
    ensures var dataAt := 1 + |LengthField(|payload|)| + 4;
            ParseHeader(TextFrame(payload, mask) + rest) == Some(Layout(dataAt - 4, dataAt, |payload|))
  {
    var b := TextFrame(payload, mask) + rest;
    var more := mask + Masked(payload, mask) + rest;
    Regroup([0x81] + LengthField(|payload|), mask, Masked(payload, mask), rest);
    HeaderReadsBack(|payload|, more);
  }

  lemma Regroup(a: seq<Byte>, b: seq<Byte>, c: seq<Byte>, d: seq<Byte>)
    ensures a + b + c + d == a + (b + c + d)
  {
  }

  lemma HeaderReadsBack(n: nat, more: seq<Byte>)
    requires n <= MAX_PAYLOAD && |more| >= 4
    ensures var dataAt := 1 + |LengthField(n)| + 4;
            ParseHeader([0x81] + LengthField(n) + more) == Some(Layout(dataAt - 4, dataAt, n))
  {
    var field := LengthField(n);
    var b := [0x81] + field + more;
    assert b[1] == field[0];
    if 125 < n <= 0xFFFF {
      assert b[2..4] == field[1..3] == BigEndian(n, 2);
      assert Pow256(2) == 0x1_0000;
      BigEndianReadsBack(n, 2);
    } else if n > 0xFFFF {
      assert b[2..10] == field[1..9] == BigEndian(n, 8);
      assert Pow256(4) == 0x1_0000_0000;
      assert Pow256(8) == 0x1_0000_0000_0000_0000;
      BigEndianReadsBack(n, 8);
    }
  }

  lemma MaskedFrameAt(head: seq<Byte>, mask: seq<Byte>, payload: seq<Byte>, rest: seq<Byte>)
    requires head != [] && |mask| == 4
    ensures var b := head + mask + Masked(payload, mask) + rest;
            var dataAt := |head| + 4;
            && FrameAt(b, Layout(|head|, dataAt, |payload|)) == Frame(head[0] % 16, payload)
            && b[dataAt + |payload|..] == rest
  {
    var masked := Masked(payload, mask);
    var b := head + mask + masked + rest;
    assert b[|head|..|head| + 4] == mask;
    assert b[|head| + 4..|head| + 4 + |payload|] == masked;
    MaskingTwiceRestores(payload, mask);
  }

  /** Parsing an encoded frame, whatever follows it, gives back the text opcode, the
      payload and exactly what followed. */
  lemma ParseAfterEncode(payload: seq<Byte>, mask: seq<Byte>, rest: seq<Byte>)
    requires |payload| <= MAX_PAYLOAD && |mask| == 4
    ensures ParseFrame(TextFrame(payload, mask) + rest) == (Some(Frame(OP_TEXT, payload)), rest)
  {
    var head := [0x81] + LengthField(|payload|);
    var b := TextFrame(payload, mask) + rest;
    assert b == head + mask + Masked(payload, mask) + rest;
    LengthFieldReadsBack(payload, mask, rest);
    MaskedFrameAt(head, mask, payload, rest);
    HeaderGivesFrame(b, Layout(|head|, |head| + 4, |payload|));
  }

  /** Any strict prefix of an encoded frame is left in the buffer for later. */
  lemma PartialFrameWaits(payload: seq<Byte>, mask: seq<Byte>, k: nat)
    requires |payload| <= MAX_PAYLOAD && |mask| == 4 && k < |TextFrame(payload, mask)|
    ensures ParseFrame(TextFrame(payload, mask)[..k]) == (None, TextFrame(payload, mask)[..k])
  {
    var f := TextFrame(payload, mask);
    ParseAfterEncode(payload, mask, []);
    assert f + [] == f;
    PrefixParsesExactlyWhen(f, k);
  }

  // --------------------------------------------------------------- streaming

  datatype Drained = Drained(frames: seq<Frame>, left: seq<Byte>)

  /** Every complete frame in the buffer, and what is left after them. */
  function Drain(b: seq<Byte>): Drained
    decreases |b|
  {
    var (frame, rest) := ParseFrame(b);
    if frame == None then Drained([], b)
    else var d := Drain(rest); Drained([frame.value] + d.frames, d.left)
  }

  /** Appending a chunk to the buffer and draining it, chunk after chunk. */
  function Feed(chunks: seq<seq<Byte>>): Drained {
    if chunks == [] then Drained([], [])
    else
      var before := Feed(chunks[..|chunks| - 1]);
      var d := Drain(before.left + chunks[|chunks| - 1]);
      Drained(before.frames + d.frames, d.left)
  }

  function Concat(chunks: seq<seq<Byte>>): seq<Byte> {
    if chunks == [] then [] else Concat(chunks[..|chunks| - 1]) + chunks[|chunks| - 1]
  }

  lemma {:induction false} DrainInTwoSteps(a: seq<Byte>, b: seq<Byte>)
    ensures var first := Drain(a);
            var second := Drain(first.left + b);
            Drain(a + b) == Drained(first.frames + second.frames, second.left)
    decreases |a|
  {
    var (frame, rest) := ParseFrame(a);
    if frame == None {
      assert [] + Drain(a + b).frames == Drain(a + b).frames;
    } else {
      FrameIsStable(a, b);
      DrainInTwoSteps(rest, b);
      var first := Drain(rest);
      var second := Drain(first.left + b);
      assert [frame.value] + (first.frames + second.frames) == [frame.value] + first.frames + second.frames;
    }
  }

  /** However a byte stream is cut into chunks, the same frames come out and the same
      bytes are left over. */
  lemma {:induction false} CutsDoNotMatter(chunks: seq<seq<Byte>>)
    ensures Feed(chunks) == Drain(Concat(chunks))
  {
    if chunks == [] {
      assert ParseFrame([]).0 == None;
    } else {
      var front, last := chunks[..|chunks| - 1], chunks[|chunks| - 1];
      CutsDoNotMatter(front);
      DrainInTwoSteps(Concat(front), last);
    }
  }

  datatype Text = Text(payload: seq<Byte>, mask: seq<Byte>)

  ghost predicate Encodable(texts: seq<Text>) {
    forall t <- texts :: |t.payload| <= MAX_PAYLOAD && |t.mask| == 4
  }

  ghost function EncodeAll(texts: seq<Text>): seq<Byte>
    requires Encodable(texts)
  {
    if texts == [] then [] else TextFrame(texts[0].payload, texts[0].mask) + EncodeAll(texts[1..])
  }

  function TextFrames(texts: seq<Text>): seq<Frame> {
    if texts == [] then [] else [Frame(OP_TEXT, texts[0].payload)] + TextFrames(texts[1..])
  }

  /** A stream of encoded frames, broken off anywhere inside one more and cut into any
      chunks, delivers exactly the payloads of the complete frames. */
  lemma StreamRoundTrip(texts: seq<Text>, last: Text, k: nat, chunks: seq<seq<Byte>>)
    requires Encodable(texts) && Encodable([last]) && k < |TextFrame(last.payload, last.mask)|
    requires Concat(chunks) == EncodeAll(texts) + TextFrame(last.payload, last.mask)[..k]
    ensures Feed(chunks) == Drained(TextFrames(texts), TextFrame(last.payload, last.mask)[..k])
  {
    CutsDoNotMatter(chunks);
    PartialFrameWaits(last.payload, last.mask, k);
    DrainsEncoded(texts, TextFrame(last.payload, last.mask)[..k]);
  }

  lemma {:induction false} DrainsEncoded(texts: seq<Text>, tail: seq<Byte>)
    requires Encodable(texts) && ParseFrame(tail).0 == None
    ensures Drain(EncodeAll(texts) + tail) == Drained(TextFrames(texts), tail)
  {
    if texts == [] {
      assert EncodeAll(texts) + tail == tail;
    } else {
      var t, rest := texts[0], texts[1..];
      assert t in texts;
      assert EncodeAll(texts) + tail == TextFrame(t.payload, t.mask) + (EncodeAll(rest) + tail);
      DrainsOneEncoded(t, EncodeAll(rest) + tail);
      DrainsEncoded(rest, tail);
    }
  }

  lemma DrainsOneEncoded(t: Text, more: seq<Byte>)
    requires Encodable([t])
    ensures var d := Drain(more);
            Drain(TextFrame(t.payload, t.mask) + more) == Drained([Frame(OP_TEXT, t.payload)] + d.frames, d.left)
  {
    assert t in [t];
    ParseAfterEncode(t.payload, t.mask, more);
  }

  // --------------------------------------------------------- the receive loop

  datatype Handled = Handled(messages: seq<seq<Byte>>, closed: bool)

  /** What a list of frames amounts to: the payloads of its text frames up to the first
      close frame, and whether there is one. */
  function Handle(frames: seq<Frame>): Handled {
    if frames == [] then Handled([], false) else Before(frames[0], Handle(frames[1..]))
  }

  /** What one more frame in front makes of the rest. */
  function Before(f: Frame, rest: Handled): Handled {
    if f.opcode == OP_CLOSE then Handled([], true)
    else if f.opcode == OP_TEXT then rest.(messages := [f.payload] + rest.messages)
    else rest
  }

  /** Two stretches of frames, one after the other. */
  function Then(h: Handled, k: Handled): Handled {
    if h.closed then h else Handled(h.messages + k.messages, k.closed)
  }

  lemma BeforeThen(f: Frame, h: Handled, k: Handled)
    ensures Then(Before(f, h), k) == Before(f, Then(h, k))
  {
    assert ([f.payload] + h.messages) + k.messages == [f.payload] + (h.messages + k.messages);
  }

  lemma {:induction false} HandleAppends(a: seq<Frame>, b: seq<Frame>)
    ensures Handle(a + b) == Then(Handle(a), Handle(b))
  {
    if a == [] {
      assert a + b == b;
    } else {
      HandleAppends(a[1..], b);
      assert (a + b)[1..] == a[1..] + b;
      BeforeThen(a[0], Handle(a[1..]), Handle(b));
    }
  }

  lemma HandleOne(f: Frame, more: seq<Frame>)
    ensures Handle([f] + more) == Before(f, Handle(more))
  {
    assert ([f] + more)[1..] == more;
  }

  lemma CollectOne(messages: seq<seq<Byte>>, f: Frame, rest: Handled)
    ensures f.opcode == OP_TEXT ==> messages + Before(f, rest).messages == (messages + [f.payload]) + rest.messages
  {
  }

  /** What taking the first frame does to the messages collected and those still to come. */
  lemma TakeOneFrame(messages: seq<seq<Byte>>, buffer: seq<Byte>)
    requires ParseFrame(buffer).0 != None
    ensures
      var (parsed, rest) := ParseFrame(buffer);
      var h, k := Handle(Drain(buffer).frames), Handle(Drain(rest).frames);
      && Drain(buffer).left == Drain(rest).left && h == Before(parsed.value, k)
      && (parsed.value.opcode == OP_TEXT ==>
            messages + h.messages == (messages + [parsed.value.payload]) + k.messages)
  {
    var (parsed, rest) := ParseFrame(buffer);
    HandleOne(parsed.value, Drain(rest).frames);
    CollectOne(messages, parsed.value, Handle(Drain(rest).frames));
  }

  /** Takes every complete frame out of the buffer, collecting messages, up to a close. */
  method DrainBuffer(buffer0: seq<Byte>) returns (messages: seq<seq<Byte>>, buffer: seq<Byte>, closed: bool)
    ensures var d := Drain(buffer0);
            Handle(d.frames) == Handled(messages, closed) && (!closed ==> buffer == d.left)
  {
    messages, buffer, closed := [], buffer0, false;
    while true
      invariant var (h, h0) := (Handle(Drain(buffer).frames), Handle(Drain(buffer0).frames));
                h0 == Handled(messages + h.messages, h.closed)
      invariant Drain(buffer0).left == Drain(buffer).left
      decreases |buffer|
    {
      var (parsed, rest) := ParseFrame(buffer);
      if parsed == None {
        return;
      }
      var frame := parsed.value;
      TakeOneFrame(messages, buffer);
      buffer := rest;
      if frame.opcode == OP_CLOSE {
        closed := true;
        return;
      }
      if frame.opcode != OP_TEXT {
        continue;
      }
      messages := messages + [frame.payload];
    }
  }

  /** All frames in the first k chunks. */
  ghost function FramesIn(chunks: seq<seq<Byte>>, k: nat): Drained
    requires k <= |chunks|
  {
    Drain(Concat(chunks[..k]))
  }

  /** Does the loop stop before reading chunk k? */
  ghost predicate StopsAt(chunks: seq<seq<Byte>>, limit: nat, k: nat)
    requires k <= |chunks|
  {
    var h := Handle(FramesIn(chunks, k).frames);
    h.closed || |h.messages| >= limit || k == |chunks| || chunks[k] == []
  }

  /** k chunks are read, leaving `buffer`, and nothing stopped the loop before. */
  ghost predicate ReadSoFar(chunks: seq<seq<Byte>>, limit: nat, k: nat, messages: seq<seq<Byte>>, buffer: seq<Byte>) {
    && k <= |chunks|
    && FramesIn(chunks, k).left == buffer
    && Handle(FramesIn(chunks, k).frames) == Handled(messages, false)
    && forall j | 0 <= j < k :: !StopsAt(chunks, limit, j)
  }

  lemma NothingReadYet(chunks: seq<seq<Byte>>, limit: nat)
    ensures ReadSoFar(chunks, limit, 0, [], [])
  {
    assert chunks[..0] == [] && ParseFrame([]).0 == None;
  }

  /** The loop stops for the first time at chunk k, with the messages of all frames read. */
  ghost predicate StopsFirstAt(chunks: seq<seq<Byte>>, limit: nat, k: nat, messages: seq<seq<Byte>>) {
    && k <= |chunks| && StopsAt(chunks, limit, k)
    && (forall j | 0 <= j < k :: !StopsAt(chunks, limit, j))
    && messages == Handle(FramesIn(chunks, k).frames).messages
  }

  /** Reading one more chunk adds the messages of what it completes. */
  lemma ReadOneMore(chunks: seq<seq<Byte>>, limit: nat, k: nat, messages: seq<seq<Byte>>, buffer: seq<Byte>)
    requires ReadSoFar(chunks, limit, k, messages, buffer) && !StopsAt(chunks, limit, k)
    ensures var d := Drain(buffer + chunks[k]);
            var h := Handle(d.frames);
            if h.closed then StopsFirstAt(chunks, limit, k + 1, messages + h.messages)
            else ReadSoFar(chunks, limit, k + 1, messages + h.messages, d.left)
  {
    assert chunks[..k + 1][..k] == chunks[..k];
    DrainInTwoSteps(Concat(chunks[..k]), chunks[k]);
    HandleAppends(FramesIn(chunks, k).frames, Drain(buffer + chunks[k]).frames);
  }

  /** Reads chunks until enough messages are in, a close frame arrives, the peer sends an
      empty chunk, or no more chunks come before the timeout. */
  method RecvMessages(chunks: seq<seq<Byte>>, limit: nat) returns (messages: seq<seq<Byte>>)
    ensures exists k: nat :: StopsFirstAt(chunks, limit, k, messages)
  {
    messages := [];
    var buffer: seq<Byte> := [];
    var i := 0;
    NothingReadYet(chunks, limit);
    while |messages| < limit && i < |chunks|
      invariant ReadSoFar(chunks, limit, i, messages, buffer)
    {
      var chunk := chunks[i];
      if chunk == [] {
        break;
      }
      ReadOneMore(chunks, limit, i, messages, buffer);
      var more, rest, closed := DrainBuffer(buffer + chunk);
      messages := messages + more;
      i := i + 1;
      if closed {
        assert StopsFirstAt(chunks, limit, i, messages);
        return;
      }
      buffer := rest;
    }
    assert StopsFirstAt(chunks, limit, i, messages);
  }
}
