/** WebSocket frames as any peer may send them, masked or not and in any of the three length
    forms (section 5.2 of RFC 6455), and what the receive loop makes of a stream of them. */
module WebSocketStream {
  import opened Wrappers
  import opened Arithmetic
  import opened Bytes
  import opened WebSocketCodec

  /** How the payload's length is written: in seven bits, in two bytes or in eight. */
  datatype Form = Short | Two | Eight

  /** A frame on the wire; the low four bits of its first byte are the opcode. */
  datatype Wire = Wire(first: Byte, form: Form, mask: Option<seq<Byte>>, payload: seq<Byte>)

  predicate IsWire(f: Wire) {
    && (f.mask != None ==> |f.mask.value| == 4)
    && |f.payload| <= (match f.form case Short => 125 case Two => 0xFFFF case Eight => MAX_PAYLOAD)
  }

  function LengthBytes(f: Wire): seq<Byte>
    requires IsWire(f)
  {
    var n, bit := |f.payload|, if f.mask == None then 0 else 0x80;
    match f.form
    case Short => [bit + n]
    case Two => [bit + 126] + BigEndian(n, 2)
    case Eight => [bit + 127] + BigEndian(n, 8)
  }

  function MaskBytes(f: Wire): seq<Byte> {
    if f.mask == None then [] else f.mask.value
  }

  function DataBytes(f: Wire): seq<Byte>
    requires IsWire(f)
  {
    if f.mask == None then f.payload else Masked(f.payload, f.mask.value)
  }

  function WireBytes(f: Wire): seq<Byte>
    requires IsWire(f)
  {
    [f.first] + LengthBytes(f) + MaskBytes(f) + DataBytes(f)
  }

  /** What the frame says. */
  function FrameOf(f: Wire): Frame {
    Frame(f.first % 16, f.payload)
  }

  // ---------------------------------------------------------------- one frame

  lemma LengthReadsBack(f: Wire, more: seq<Byte>)
    requires IsWire(f) && |more| >= |MaskBytes(f)|
    ensures var maskAt := 1 + |LengthBytes(f)|;
            ParseHeader([f.first] + LengthBytes(f) + more)
            == Some(Layout(maskAt, maskAt + |MaskBytes(f)|, |f.payload|))
  {
    var n, field := |f.payload|, LengthBytes(f);
    var b := [f.first] + field + more;
    assert b[1] == field[0];
    if f.form == Two {
      assert b[2..4] == field[1..3] == BigEndian(n, 2);
      assert Pow256(2) == 0x1_0000;
      BigEndianReadsBack(n, 2);
    } else if f.form == Eight {
      assert b[2..10] == field[1..9] == BigEndian(n, 8);
      assert Pow256(4) == 0x1_0000_0000;
      assert Pow256(8) == 0x1_0000_0000_0000_0000;
      BigEndianReadsBack(n, 8);
    }
  }

  lemma DataReadsBack(head: seq<Byte>, f: Wire, rest: seq<Byte>)
    requires IsWire(f) && head != []
    ensures var b := head + MaskBytes(f) + DataBytes(f) + rest;
            var dataAt := |head| + |MaskBytes(f)|;
            && FrameAt(b, Layout(|head|, dataAt, |f.payload|)) == Frame(head[0] % 16, f.payload)
            && b[dataAt + |f.payload|..] == rest
  {
    var b := head + MaskBytes(f) + DataBytes(f) + rest;
    var dataAt := |head| + |MaskBytes(f)|;
    assert b[|head|..dataAt] == MaskBytes(f);
    assert b[dataAt..dataAt + |f.payload|] == DataBytes(f);
    if f.mask != None {
      MaskingTwiceRestores(f.payload, f.mask.value);
    }
  }

  /** Parsing any frame, whatever follows it, gives its opcode, its payload and exactly what
      followed. */
  lemma ParseAnyFrame(f: Wire, rest: seq<Byte>)
    requires IsWire(f)
    ensures ParseFrame(WireBytes(f) + rest) == (Some(FrameOf(f)), rest)
  {
    var head := [f.first] + LengthBytes(f);
    var more := MaskBytes(f) + DataBytes(f) + rest;
    var b := WireBytes(f) + rest;
    Regroup(head, MaskBytes(f), DataBytes(f), rest);
    LengthReadsBack(f, more);
    DataReadsBack(head, f, rest);
    HeaderGivesFrame(b, Layout(|head|, |head| + |MaskBytes(f)|, |f.payload|));
  }

  /** ... and a frame that is not all there is left for later. */
  lemma PartOfAnyFrameWaits(f: Wire, k: nat)
    requires IsWire(f) && k < |WireBytes(f)|
    ensures ParseFrame(WireBytes(f)[..k]) == (None, WireBytes(f)[..k])
  {
    ParseAnyFrame(f, []);
    assert WireBytes(f) + [] == WireBytes(f);
    PrefixParsesExactlyWhen(WireBytes(f), k);
  }

  /** What the encoder sends is such a frame: first byte 0x81, masked, in the shortest form. */
  lemma TextFramesAreFrames(payload: seq<Byte>, mask: seq<Byte>)
    requires |payload| <= MAX_PAYLOAD && |mask| == 4
    ensures var form := if |payload| <= 125 then Short else if |payload| <= 0xFFFF then Two else Eight;
            var f := Wire(0x81, form, Some(mask), payload);
            IsWire(f) && WireBytes(f) == TextFrame(payload, mask)
  {
  }

  /** Masking takes the four bytes of the mask in turn, and changes exactly the bits that are
      set in them. */
  lemma MaskingIsBitwise(payload: seq<Byte>, mask: seq<Byte>, i: nat, bit: nat)
    requires |mask| == 4 && i < |payload|
    ensures BitOf(Masked(payload, mask)[i], bit)
            <==> BitOf(payload[i], bit) != BitOf(mask[if i < 4 then i else i % 4], bit)
  {
    XorIsBitwise(payload[i], mask[i % 4], bit);
  }

  // ---------------------------------------------------------- streams of frames

  ghost predicate AreWires(frames: seq<Wire>) {
    forall f <- frames :: IsWire(f)
  }

  ghost function StreamBytes(frames: seq<Wire>): seq<Byte>
    requires AreWires(frames)
  {
    if frames == [] then [] else WireBytes(frames[0]) + StreamBytes(frames[1..])
  }

  function FramesOf(frames: seq<Wire>): seq<Frame> {
    if frames == [] then [] else [FrameOf(frames[0])] + FramesOf(frames[1..])
  }

  lemma {:induction false} DrainsAnyStream(frames: seq<Wire>, tail: seq<Byte>)
    requires AreWires(frames) && ParseFrame(tail).0 == None
    ensures Drain(StreamBytes(frames) + tail) == Drained(FramesOf(frames), tail)
  {
    if frames == [] {
      assert StreamBytes(frames) + tail == tail;
    } else {
      var f, rest := frames[0], frames[1..];
      assert f in frames;
      assert StreamBytes(frames) + tail == WireBytes(f) + (StreamBytes(rest) + tail);
      ParseAnyFrame(f, StreamBytes(rest) + tail);
      DrainsAnyStream(rest, tail);
    }
  }

  /** A stream of frames of any kind, broken off anywhere inside one more. */
  ghost predicate IsStream(bytes: seq<Byte>, frames: seq<Wire>, last: Wire, k: nat) {
    && AreWires(frames) && IsWire(last) && k < |WireBytes(last)|
    && bytes == StreamBytes(frames) + WireBytes(last)[..k]
  }

  /** However it is cut into chunks, exactly the complete frames come out, in order. */
  lemma AnyStreamRoundTrip(chunks: seq<seq<Byte>>, frames: seq<Wire>, last: Wire, k: nat)
    requires IsStream(Concat(chunks), frames, last, k)
    ensures Feed(chunks) == Drained(FramesOf(frames), WireBytes(last)[..k])
  {
    CutsDoNotMatter(chunks);
    PartOfAnyFrameWaits(last, k);
    DrainsAnyStream(frames, WireBytes(last)[..k]);
  }

  // ------------------------------------------------------------ what is received

  /** The payloads of the text frames before the first close frame. */
  function TextsOf(frames: seq<Wire>): seq<seq<Byte>> {
    if frames == [] || frames[0].first % 16 == OP_CLOSE then []
    else (if frames[0].first % 16 == OP_TEXT then [frames[0].payload] else []) + TextsOf(frames[1..])
  }

  lemma {:induction false} TextsAreHandled(frames: seq<Wire>)
    ensures Handle(FramesOf(frames)).messages == TextsOf(frames)
  {
    if frames == [] {
    } else {
      TextsAreHandled(frames[1..]);
      assert FramesOf(frames)[1..] == FramesOf(frames[1..]);
      assert [] + TextsOf(frames[1..]) == TextsOf(frames[1..]);
    }
  }

  lemma {:induction false} ConcatSplits(chunks: seq<seq<Byte>>, k: nat)
    requires k <= |chunks|
    ensures Concat(chunks) == Concat(chunks[..k]) + Concat(chunks[k..])
    decreases |chunks|
  {
    if k == |chunks| {
      assert chunks[..k] == chunks && Concat(chunks[k..]) == [];
    } else {
      var n := |chunks| - 1;
      ConcatSplits(chunks[..n], k);
      assert chunks[..n][..k] == chunks[..k];
      assert chunks[k..][..n - k] == chunks[..n][k..] && chunks[k..][n - k] == chunks[n];
    }
  }

  /** The messages in all the chunks. */
  function MessagesIn(chunks: seq<seq<Byte>>): Handled {
    Handle(Drain(Concat(chunks)).frames)
  }

  /** What is handled of the first k chunks is handled of all of them, and then the rest. */
  lemma HandledSoFar(chunks: seq<seq<Byte>>, k: nat) returns (rest: Handled)
    requires k <= |chunks|
    ensures MessagesIn(chunks) == Then(Handle(FramesIn(chunks, k).frames), rest)
    ensures k == |chunks| ==> MessagesIn(chunks) == Handle(FramesIn(chunks, k).frames)
  {
    ConcatSplits(chunks, k);
    DrainInTwoSteps(Concat(chunks[..k]), Concat(chunks[k..]));
    var first := Drain(Concat(chunks[..k]));
    var second := Drain(first.left + Concat(chunks[k..]));
    HandleAppends(first.frames, second.frames);
    rest := Handle(second.frames);
    if k == |chunks| {
      assert chunks[..k] == chunks;
    }
  }

  lemma StopsWithMessages(chunks: seq<seq<Byte>>, limit: nat, n: nat, messages: seq<seq<Byte>>)
    requires StopsFirstAt(chunks, limit, n, messages) && forall chunk <- chunks :: chunk != []
    ensures messages <= MessagesIn(chunks).messages
    ensures |messages| >= limit || messages == MessagesIn(chunks).messages
  {
    var rest := HandledSoFar(chunks, n);
    assert n < |chunks| ==> chunks[n] in chunks;
  }

  /** On any stream of frames, in any chunks that are not empty, what the receive loop returns
      is text payloads from the first on, in order: all of those before the first close frame,
      unless it has as many as it was asked for. */
  lemma LoopReceivesTexts(chunks: seq<seq<Byte>>, limit: nat, n: nat, messages: seq<seq<Byte>>,
                          frames: seq<Wire>, last: Wire, k: nat)
    requires IsStream(Concat(chunks), frames, last, k) && (forall chunk <- chunks :: chunk != [])
    requires StopsFirstAt(chunks, limit, n, messages)
    ensures messages <= TextsOf(frames)
    ensures |messages| >= limit || messages == TextsOf(frames)
  {
    StopsWithMessages(chunks, limit, n, messages);
    StreamHoldsTexts(chunks, frames, last, k);
  }

  lemma StreamHoldsTexts(chunks: seq<seq<Byte>>, frames: seq<Wire>, last: Wire, k: nat)
    requires IsStream(Concat(chunks), frames, last, k)
    ensures MessagesIn(chunks).messages == TextsOf(frames)
  {
    PartOfAnyFrameWaits(last, k);
    DrainsAnyStream(frames, WireBytes(last)[..k]);
    TextsAreHandled(frames);
  }
}
