/** Turning emulator frames into RGBA and scaling them by nearest neighbour. */
module Pixels {
  import opened Wrappers
  import opened Arithmetic

  datatype Format = Xrgb8888 | Rgb565 | Rgb1555 | Unknown(code: int)

  datatype Color = Color(r: bv8, g: bv8, b: bv8, a: bv8)

  /** A frame as the emulator hands it over. `pitch` is the bytes from one row to the next. */
  class VideoFrame {
    const width: nat
    const height: nat
    const pitch: nat
    const format: Format
    const data: array<bv8>

    constructor (width: nat, height: nat, pitch: nat, format: Format, data: array<bv8>)
      ensures this.width == width && this.height == height && this.pitch == pitch
      ensures this.format == format && this.data == data
    {
      this.width, this.height, this.pitch, this.format, this.data := width, height, pitch, format, data;
    }
  }

  function BytesPerPixel(format: Format): nat {
    if format == Xrgb8888 then 4 else 2
  }

  // ------------------------------------------------------------------ colours

  function Expand5(c: bv8): bv8 {
    (c << 3) | (c >> 2)
  }

  function Expand6(c: bv8): bv8 {
    (c << 2) | (c >> 4)
  }

  /** The low `mask` bits of raw >> shift. */
  function Field(raw: bv16, shift: nat, mask: bv16): bv8
    requires shift <= 16 && mask <= 0x3f
  {
    ((raw >> shift) & mask) as bv8
  }

  function Word(lo: bv8, hi: bv8): bv16 {
    ((hi as bv16) << 8) | (lo as bv16)
  }

  function Color565(raw: bv16): Color {
    Color(Expand5(Field(raw, 11, 0x1f)), Expand6(Field(raw, 5, 0x3f)), Expand5(Field(raw, 0, 0x1f)), 255)
  }

  function Color1555(raw: bv16): Color {
    Color(Expand5(Field(raw, 10, 0x1f)), Expand5(Field(raw, 5, 0x1f)), Expand5(Field(raw, 0, 0x1f)), 255)
  }

  /** The colour of the pixel whose bytes start at `at`. */
  function ColorAt(format: Format, data: seq<bv8>, at: nat): Color
    requires !format.Unknown? && at + BytesPerPixel(format) <= |data|
  {
    match format
    case Xrgb8888 => Color(data[at + 2], data[at + 1], data[at], 255)
    case Rgb565 => Color565(Word(data[at], data[at + 1]))
    case Rgb1555 => Color1555(Word(data[at], data[at + 1]))
  }

  /** A 5- or 6-bit channel is recovered from its 8-bit form by shifting. */
  lemma ChannelsRecoverByShifting(c: bv8)
    ensures c <= 0x1f ==> Expand5(c) >> 3 == c
    ensures c <= 0x3f ==> Expand6(c) >> 2 == c
  {
  }

  /** ... and the bits below repeat its high bits, so that the channel fills the whole range. */
  lemma LowBitsRepeatHighBits(c: bv8)
    ensures c <= 0x1f ==> Expand5(c) & 7 == c >> 2
    ensures c <= 0x3f ==> Expand6(c) & 3 == c >> 4
    ensures Expand5(0) == 0 && Expand5(0x1f) == 0xff && Expand6(0) == 0 && Expand6(0x3f) == 0xff
  {
  }

  /** So the fields of a 16-bit pixel are read back from the colour made of it. */
  lemma Color565RecoversFields(raw: bv16)
    ensures var c := Color565(raw);
            c.r >> 3 == Field(raw, 11, 0x1f) && c.g >> 2 == Field(raw, 5, 0x3f) && c.b >> 3 == Field(raw, 0, 0x1f)
  {
    FieldsFit(raw);
    ChannelsRecoverByShifting(Field(raw, 11, 0x1f));
    ChannelsRecoverByShifting(Field(raw, 5, 0x3f));
    ChannelsRecoverByShifting(Field(raw, 0, 0x1f));
  }

  lemma Color1555RecoversFields(raw: bv16)
    ensures var c := Color1555(raw);
            c.r >> 3 == Field(raw, 10, 0x1f) && c.g >> 3 == Field(raw, 5, 0x1f) && c.b >> 3 == Field(raw, 0, 0x1f)
  {
    FieldsFit(raw);
    ChannelsRecoverByShifting(Field(raw, 10, 0x1f));
    ChannelsRecoverByShifting(Field(raw, 5, 0x1f));
    ChannelsRecoverByShifting(Field(raw, 0, 0x1f));
  }

  lemma FieldsFit(raw: bv16)
    ensures Field(raw, 11, 0x1f) <= 0x1f && Field(raw, 10, 0x1f) <= 0x1f && Field(raw, 0, 0x1f) <= 0x1f
    ensures Field(raw, 5, 0x1f) <= 0x1f && Field(raw, 5, 0x3f) <= 0x3f
  {
  }

  /** The fields are the whole pixel, but for the unused top bit of the 15-bit format. */
  lemma FieldsMakeTheWord(raw: bv16)
    ensures ((Field(raw, 11, 0x1f) as bv16) << 11) | ((Field(raw, 5, 0x3f) as bv16) << 5)
            | (Field(raw, 0, 0x1f) as bv16) == raw
    ensures ((Field(raw, 10, 0x1f) as bv16) << 10) | ((Field(raw, 5, 0x1f) as bv16) << 5)
            | (Field(raw, 0, 0x1f) as bv16) == raw & 0x7fff
  {
  }

  /** Pixels are little-endian words: the lower byte comes first, and the 32-bit format holds
      red, green and blue from bit 23 down. */
  lemma PixelsAreLittleEndian(data: seq<bv8>, at: nat)
    requires at + 4 <= |data|
    ensures Word(data[at], data[at + 1]) & 0xff == data[at] as bv16
    ensures Word(data[at], data[at + 1]) >> 8 == data[at + 1] as bv16
    ensures
      var word := ((data[at + 3] as bv32) << 24) | ((data[at + 2] as bv32) << 16)
                  | ((data[at + 1] as bv32) << 8) | (data[at] as bv32);
      ColorAt(Xrgb8888, data, at)
      == Color(((word >> 16) & 0xff) as bv8, ((word >> 8) & 0xff) as bv8, (word & 0xff) as bv8, 255)
  {
    ChannelsOfWord(data[at], data[at + 1], data[at + 2], data[at + 3]);
  }

  lemma ChannelsOfWord(b: bv8, g: bv8, r: bv8, x: bv8)
    ensures
      var word := ((x as bv32) << 24) | ((r as bv32) << 16) | ((g as bv32) << 8) | (b as bv32);
      && ((word >> 16) & 0xff) as bv8 == r && ((word >> 8) & 0xff) as bv8 == g && (word & 0xff) as bv8 == b
  {
  }

  // ------------------------------------------------------- RGBA conversion

  /** The q-th pixel of RGBA data, counting along rows. */
  function PixelOf(rgba: seq<bv8>, q: nat): Color
    requires 4 * q + 4 <= |rgba|
  {
    Color(rgba[4 * q], rgba[4 * q + 1], rgba[4 * q + 2], rgba[4 * q + 3])
  }

  /** Where the q-th pixel of a frame starts. */
  function SourceOf(q: nat, width: nat, pitch: nat, bytesPerPixel: nat): nat
    requires width > 0
  {
    (q / width) * pitch + (q % width) * bytesPerPixel
  }

  /** The first n pixels of `rgba` are those of the frame. */
  ghost predicate Converts(rgba: seq<bv8>, n: nat, format: Format, data: seq<bv8>, width: nat, pitch: nat) {
    && width > 0 && !format.Unknown?
    && 4 * n <= |rgba|
    && forall q | 0 <= q < n ::
         var at := SourceOf(q, width, pitch, BytesPerPixel(format));
         at + BytesPerPixel(format) <= |data| && PixelOf(rgba, q) == ColorAt(format, data, at)
  }

  ghost predicate IsRgbaOf(rgba: seq<bv8>, format: Format, data: seq<bv8>, width: nat, height: nat, pitch: nat) {
    |rgba| == 4 * (width * height) && Converts(rgba, width * height, format, data, width, pitch)
  }

  /** There is only one such picture, so however it was made its bytes are the same. */
  lemma RgbaIsUnique(a: seq<bv8>, b: seq<bv8>, format: Format, data: seq<bv8>, width: nat, height: nat, pitch: nat)
    requires IsRgbaOf(a, format, data, width, height, pitch) && IsRgbaOf(b, format, data, width, height, pitch)
    ensures a == b
  {
    forall k | 0 <= k < |a| ensures a[k] == b[k] {
      var q := k / 4;
      assert PixelOf(a, q) == PixelOf(b, q);
    }
  }

  lemma PixelIndex(y: nat, x: nat, width: nat)
    requires x < width
    ensures (y * width + x) / width == y && (y * width + x) % width == x
  {
    RemainderIsUnique(y * width + x, width, y, x);
  }

  lemma PackedSource(q: nat, width: nat)
    requires width > 0
    ensures SourceOf(q, width, 4 * width, 4) == 4 * q
  {
    assert (q / width) * (4 * width) == 4 * (width * (q / width));
  }

  /** The last row's bytes are there exactly when every row's are. */
  lemma RowsInRange(y: nat, height: nat, pitch: nat)
    requires y < height
    ensures y * pitch <= (height - 1) * pitch && y * pitch + pitch <= height * pitch
  {
    MulMonotone(pitch, y, height - 1);
    assert pitch * (y + 1) <= pitch * height by { MulMonotone(pitch, y + 1, height); }
  }

  lemma NextRow(y: nat, width: nat)
    ensures y * width + width == (y + 1) * width && y * width == width * y
  {
  }

  /** A byte buffer that is reused from frame to frame. */
  class Scratch {
    var bytes: array<bv8>

    constructor ()
      ensures fresh(bytes)
    {
      bytes := new bv8[0];
    }

    method Resize(n: nat)
      modifies this
      ensures bytes.Length == n && (bytes == old(bytes) || fresh(bytes))
    {
      if bytes.Length != n {
        bytes := new bv8[n];
      }
    }
  }

  predicate CoversRows(dataLen: nat, format: Format, width: nat, height: nat, pitch: nat)
    requires height > 0
  {
    height * pitch <= dataLen && (height - 1) * pitch + width * BytesPerPixel(format) <= dataLen
  }

  /** Exactly when a frame of these dimensions can be converted. */
  predicate IsConvertible(dataLen: nat, format: Format, width: nat, height: nat, pitch: nat) {
    && !format.Unknown?
    && pitch > 0 && width > 0 && height > 0
    && CoversRows(dataLen, format, width, height, pitch)
    && 4 * (width * height) <= USIZE_MAX
  }

  /** Swaps red and blue of each four-byte pixel and makes it opaque. */
  method ConvertInPlace(data: array<bv8>, n: nat, width: nat)
    requires 4 * n <= data.Length && width > 0
    modifies data
    ensures Converts(data[..], n, Xrgb8888, old(data[..]), width, 4 * width)
  {
    ghost var source := data[..];
    for p := 0 to n
      invariant forall q | 0 <= q < p :: PixelOf(data[..], q) == ColorAt(Xrgb8888, source, 4 * q)
      invariant forall k | 4 * p <= k < data.Length :: data[k] == source[k]
    {
      var base := 4 * p;
      data[base], data[base + 2] := data[base + 2], data[base];
      data[base + 3] := 255;
      assert forall q | 0 <= q < p :: PixelOf(data[..], q) == ColorAt(Xrgb8888, source, 4 * q);
    }
    forall q | 0 <= q < n ensures SourceOf(q, width, 4 * width, 4) == 4 * q {
      PackedSource(q, width);
    }
  }

  function WithPixel(rgba: seq<bv8>, q: nat, c: Color): (r: seq<bv8>)
    requires 4 * q + 4 <= |rgba|
  {
    rgba[4 * q := c.r][4 * q + 1 := c.g][4 * q + 2 := c.b][4 * q + 3 := c.a]
  }

  lemma ConvertsOneMore(rgba: seq<bv8>, q: nat, c: Color, format: Format, data: seq<bv8>, width: nat, pitch: nat)
    requires Converts(rgba, q, format, data, width, pitch) && 4 * q + 4 <= |rgba|
    requires var at := SourceOf(q, width, pitch, BytesPerPixel(format));
             at + BytesPerPixel(format) <= |data| && c == ColorAt(format, data, at)
    ensures Converts(WithPixel(rgba, q, c), q + 1, format, data, width, pitch)
  {
    var after := WithPixel(rgba, q, c);
    assert PixelOf(after, q) == c;
    assert forall k | 0 <= k < q :: PixelOf(after, k) == PixelOf(rgba, k);
  }

  /** Converts row y of a frame, whose bytes are known to be there. */
  method ConvertRow(format: Format, data: array<bv8>, out: array<bv8>, y: nat, width: nat, height: nat, pitch: nat)
    requires data != out && !format.Unknown? && width > 0 && y < height
    requires out.Length == 4 * (width * height) && y * pitch + width * BytesPerPixel(format) <= data.Length
    requires Converts(out[..], y * width, format, data[..], width, pitch)
    modifies out
    ensures Converts(out[..], y * width + width, format, data[..], width, pitch)
  {
    var bytesPerPixel := BytesPerPixel(format);
    RowsInRange(y, height, width);
    for x := 0 to width
      invariant Converts(out[..], y * width + x, format, data[..], width, pitch)
    {
      RowsInRange(x, width, bytesPerPixel);
      ConvertPixel(format, data, out, y * width + x, y * pitch + x * bytesPerPixel, y, x, width, pitch);
    }
  }

  /** Converts pixel q, the x-th of row y. */
  method ConvertPixel(format: Format, data: array<bv8>, out: array<bv8>, q: nat, at: nat,
                      ghost y: nat, ghost x: nat, width: nat, pitch: nat)
    requires data != out && !format.Unknown? && x < width && q == y * width + x
    requires at == y * pitch + x * BytesPerPixel(format)
    requires 4 * q + 4 <= out.Length && at + BytesPerPixel(format) <= data.Length
    requires Converts(out[..], q, format, data[..], width, pitch)
    modifies out
    ensures Converts(out[..], q + 1, format, data[..], width, pitch)
  {
    PixelIndex(y, x, width);
    ghost var before := out[..];
    var color := ColorAt(format, data[..], at);
    out[4 * q], out[4 * q + 1], out[4 * q + 2], out[4 * q + 3] := color.r, color.g, color.b, color.a;
    assert out[..] == WithPixel(before, q, color);
    ConvertsOneMore(before, q, color, format, data[..], width, pitch);
  }

  /** Converts row by row, giving up at the first row whose bytes are not all there. */
  method ConvertRows(format: Format, data: array<bv8>, out: array<bv8>, width: nat, height: nat, pitch: nat)
    returns (ok: bool)
    requires data != out && !format.Unknown? && width > 0 && height > 0
    requires out.Length == 4 * (width * height)
    modifies out
    ensures ok <==> (height - 1) * pitch + width * BytesPerPixel(format) <= data.Length
    ensures ok ==> IsRgbaOf(out[..], format, data[..], width, height, pitch)
  {
    var expectedRowBytes := width * BytesPerPixel(format);
    for y := 0 to height
      invariant y > 0 ==> (y - 1) * pitch + expectedRowBytes <= data.Length
      invariant Converts(out[..], y * width, format, data[..], width, pitch)
    {
      RowsInRange(y, height, pitch);
      if y * pitch + expectedRowBytes > data.Length {
        return false;
      }
      ConvertRow(format, data, out, y, width, height, pitch);
      NextRow(y, width);
    }
    NextRow(height, width);
    ok := true;
  }

  /** The converted picture, made in the frame's own bytes when its rows are packed and in
      the scratch buffer otherwise; None exactly when it cannot be made. */
  method FillRgbaBufferFromFrame(frame: VideoFrame, out: Scratch) returns (rgba: Option<seq<bv8>>)
    requires frame.data != out.bytes && frame.data.Length <= USIZE_MAX
    modifies frame.data, out, out.bytes
    ensures rgba != None <==> IsConvertible(frame.data.Length, frame.format, frame.width, frame.height, frame.pitch)
    ensures rgba != None ==>
              IsRgbaOf(rgba.value, frame.format, old(frame.data[..]), frame.width, frame.height, frame.pitch)
  {
    var width, height, pitch, data := frame.width, frame.height, frame.pitch, frame.data;
    if pitch == 0 || width == 0 || height == 0 {
      return None;
    }
    var minExpected := height * pitch;
    if minExpected > USIZE_MAX || data.Length < minExpected {
      return None;
    }
    var outLen := 4 * (width * height);
    if outLen > USIZE_MAX || frame.format.Unknown? {
      return None;
    }
    var expectedRowBytes := width * BytesPerPixel(frame.format);
    if frame.format == Xrgb8888 && pitch == expectedRowBytes {
      PackedFrameIsCovered(width, height, data.Length);
      if data.Length < outLen {
        // A packed frame that covers its rows covers its picture.
        assert false;
      }
      ConvertInPlace(data, width * height, width);
      assert Converts(data[..outLen], width * height, Xrgb8888, old(data[..]), width, pitch) by {
        assert forall q | 0 <= q < width * height :: PixelOf(data[..outLen], q) == PixelOf(data[..], q);
      }
      return Some(data[..outLen]);
    }

    out.Resize(outLen);
    var ok := ConvertRows(frame.format, data, out.bytes, width, height, pitch);
    rgba := if ok then Some(out.bytes[..]) else None;
  }

  lemma PackedFrameIsCovered(width: nat, height: nat, dataLen: nat)
    requires width > 0 && height > 0 && height * (4 * width) <= dataLen
    ensures 4 * (width * height) <= dataLen && CoversRows(dataLen, Xrgb8888, width, height, 4 * width)
  {
    assert height * (4 * width) == 4 * (width * height);
    assert (height - 1) * (4 * width) + 4 * width == height * (4 * width);
  }

  // ------------------------------------------------------ nearest neighbour

  function SatMul(a: nat, b: nat): nat {
    if a * b > USIZE_MAX then USIZE_MAX else a * b
  }

  function SatAdd(a: nat, b: nat): nat {
    if a + b > USIZE_MAX then USIZE_MAX else a + b
  }

  /** The source coordinate for destination coordinate i. */
  function Nearest(i: nat, src: nat, dst: nat): nat
    requires dst > 0
  {
    i * src / dst
  }

  /** The first n destination pixels are the nearest source pixels. */
  ghost predicate Scales(out: seq<bv8>, n: nat, src: seq<bv8>, srcW: nat, srcH: nat, dstW: nat, dstH: nat) {
    && dstW > 0 && dstH > 0 && 4 * n <= |out|
    && forall q | 0 <= q < n ::
         var p := Nearest(q / dstW, srcH, dstH) * srcW + Nearest(q % dstW, srcW, dstW);
         4 * p + 4 <= |src| && PixelOf(out, q) == PixelOf(src, p)
  }

  lemma NearestInRange(i: nat, src: nat, dst: nat)
    requires i < dst && src > 0
    ensures Nearest(i, src, dst) < src
  {
    assert i * src < dst * src by { MulMonotone(src, i + 1, dst); }
    QuotientBelow(i * src, dst, src);
  }

  lemma QuotientBelow(a: nat, d: nat, bound: nat)
    requires d > 0 && a < d * bound
    ensures a / d < bound
  {
    if a / d >= bound {
      MulMonotone(d, bound, a / d);
      assert false;
    }
  }

  type U32 = n: nat | n < 0x1_0000_0000

  lemma ScalesOneMore(out: seq<bv8>, q: nat, c: Color, src: seq<bv8>, srcW: nat, srcH: nat, dstW: nat, dstH: nat)
    requires Scales(out, q, src, srcW, srcH, dstW, dstH) && 4 * q + 4 <= |out|
    requires var p := Nearest(q / dstW, srcH, dstH) * srcW + Nearest(q % dstW, srcW, dstW);
             4 * p + 4 <= |src| && c == PixelOf(src, p)
    ensures Scales(WithPixel(out, q, c), q + 1, src, srcW, srcH, dstW, dstH)
  {
    var after := WithPixel(out, q, c);
    assert PixelOf(after, q) == c;
    assert forall k | 0 <= k < q :: PixelOf(after, k) == PixelOf(out, k);
  }

  lemma ProductFits(a: U32, b: U32)
    ensures a * b <= USIZE_MAX && SatMul(a, b) == a * b
  {
    MulMonotone(a, b, 0xFFFF_FFFF);
    assert a * 0xFFFF_FFFF <= 0xFFFF_FFFF * 0xFFFF_FFFF;
  }

  /** Fills destination row y from its source row. Saturating arithmetic never saturates
      and no range check fails. */
  method ScaleRow(src: seq<bv8>, dst: array<bv8>, y: nat, srcY: nat, srcRowStart: nat, dstRowStart: nat,
                  srcW: U32, srcH: U32, dstW: U32, dstH: U32)
    requires srcW > 0 && srcH > 0 && dstW > 0 && y < dstH && |src| <= USIZE_MAX && dst.Length <= USIZE_MAX
    requires srcY == Nearest(y, srcH, dstH) && srcRowStart == srcY * (4 * srcW) && dstRowStart == y * (4 * dstW)
    requires srcRowStart + 4 * srcW <= |src| && dstRowStart + 4 * dstW <= dst.Length
    requires Scales(dst[..], y * dstW, src, srcW, srcH, dstW, dstH)
    modifies dst
    ensures Scales(dst[..], y * dstW + dstW, src, srcW, srcH, dstW, dstH)
  {
    for x := 0 to dstW
      invariant Scales(dst[..], y * dstW + x, src, srcW, srcH, dstW, dstH)
    {
      ProductFits(x, srcW);
      NearestInRange(x, srcW, dstW);
      var srcX := SatMul(x, srcW) / dstW;
      var srcBase := SatMul(srcX, 4);
      var dstBase := SatMul(x, 4);
      if SatAdd(srcBase, 4) > 4 * srcW || SatAdd(dstBase, 4) > 4 * dstW {
        assert false;
      }
      var q, p := y * dstW + x, srcY * srcW + srcX;
      RowBase(y, dstW, x);
      RowBase(srcY, srcW, srcX);
      PixelIndex(y, x, dstW);
      CopyPixel(src, dst, q, p, srcRowStart + srcBase, dstRowStart + dstBase, srcW, srcH, dstW, dstH);
    }
  }

  lemma RowBase(y: nat, w: nat, x: nat)
    ensures y * (4 * w) + 4 * x == 4 * (y * w + x)
  {
    assert y * (4 * w) == 4 * (y * w);
  }

  /** Copies the four bytes of source pixel p to destination pixel q. */
  method CopyPixel(src: seq<bv8>, dst: array<bv8>, q: nat, p: nat, srcAt: nat, dstAt: nat,
                   srcW: nat, srcH: nat, dstW: nat, dstH: nat)
    requires dstW > 0 && dstH > 0 && srcAt == 4 * p && dstAt == 4 * q && dstAt + 4 <= dst.Length && srcAt + 4 <= |src|
    requires p == Nearest(q / dstW, srcH, dstH) * srcW + Nearest(q % dstW, srcW, dstW)
    requires Scales(dst[..], q, src, srcW, srcH, dstW, dstH)
    modifies dst
    ensures Scales(dst[..], q + 1, src, srcW, srcH, dstW, dstH)
  {
    ghost var before := dst[..];
    dst[dstAt], dst[dstAt + 1], dst[dstAt + 2], dst[dstAt + 3] :=
      src[srcAt], src[srcAt + 1], src[srcAt + 2], src[srcAt + 3];
    assert dst[..] == WithPixel(before, q, PixelOf(src, p));
    ScalesOneMore(before, q, PixelOf(src, p), src, srcW, srcH, dstW, dstH);
  }

  /** Scales into the buffer; it fails exactly for a zero size, too little source data, or
      a destination too large to address, and then before anything is drawn. */
  method ScaleRgbaNearest(src: seq<bv8>, srcW: U32, srcH: U32, dstW: U32, dstH: U32, dst: Scratch) returns (ok: bool)
    requires |src| <= USIZE_MAX
    modifies dst, dst.bytes
    ensures ok <==> srcW > 0 && srcH > 0 && dstW > 0 && dstH > 0
                    && 4 * (srcW * srcH) <= |src| && 4 * (dstW * dstH) <= USIZE_MAX
    ensures ok ==> dst.bytes.Length == 4 * (dstW * dstH)
    ensures ok ==> Scales(dst.bytes[..], dstW * dstH, src, srcW, srcH, dstW, dstH)
  {
    if srcW == 0 || srcH == 0 || dstW == 0 || dstH == 0 {
      return false;
    }
    RowBase(srcH, srcW, 0);
    RowBase(dstH, dstW, 0);
    var srcStride, dstStride := 4 * srcW, 4 * dstW;
    if srcStride * srcH > USIZE_MAX || |src| < srcStride * srcH {
      return false;
    }
    if dstStride * dstH > USIZE_MAX {
      return false;
    }
    dst.Resize(dstStride * dstH);
    for y := 0 to dstH
      invariant dst.bytes == old(dst.bytes) || fresh(dst.bytes)
      invariant dst.bytes.Length == dstStride * dstH
      invariant Scales(dst.bytes[..], y * dstW, src, srcW, srcH, dstW, dstH)
    {
      ProductFits(y, srcH);
      NearestInRange(y, srcH, dstH);
      var srcY := SatMul(y, srcH) / dstH;
      RowsInRange(srcY, srcH, srcStride);
      RowsInRange(y, dstH, dstStride);
      var srcRowStart := SatMul(srcY, srcStride);
      var srcRowEnd := SatAdd(srcRowStart, srcStride);
      var dstRowStart := SatMul(y, dstStride);
      var dstRowEnd := SatAdd(dstRowStart, dstStride);
      if srcRowEnd > |src| || dstRowEnd > dst.bytes.Length {
        // Every source row sampled and every destination row is in range.
        assert false;
      }
      ScaleRow(src, dst.bytes, y, srcY, srcRowStart, dstRowStart, srcW, srcH, dstW, dstH);
      NextRow(y, dstW);
    }
    NextRow(dstH, dstW);
    ok := true;
  }

  /** Sampling moves along the source in order, and equal sizes sample each pixel itself. */
  lemma NearestIsMonotone(i: nat, j: nat, src: nat, dst: nat)
    requires i <= j && dst > 0
    ensures Nearest(i, src, dst) <= Nearest(j, src, dst)
    ensures Nearest(i, dst, dst) == i
  {
    MulMonotone(src, i, j);
    QuotientMonotone(i * src, j * src, dst);
    RemainderIsUnique(i * dst, dst, i, 0);
  }

  /** The source coordinate sampled is the one whose stretch of the destination covers i. */
  lemma NearestExactlyWhen(i: nat, src: nat, dst: nat, k: nat)
    requires dst > 0
    ensures Nearest(i, src, dst) == k <==> k * dst <= i * src < (k + 1) * dst
  {
    var a, n := i * src, Nearest(i, src, dst);
    assert a == dst * n + a % dst;
    assert n * dst <= a < (n + 1) * dst;
    if k < n {
      MulMonotone(dst, k + 1, n);
      assert (k + 1) * dst <= n * dst;
    } else if n < k {
      MulMonotone(dst, n + 1, k);
      assert (n + 1) * dst <= k * dst;
    }
  }

  /** Scaling up by a whole factor repeats each source pixel that many times, and scaling down
      by one takes every so many. */
  lemma WholeFactorsRepeatAndPick(i: nat, size: nat, factor: nat)
    requires size > 0 && factor > 0
    ensures Nearest(i, size, factor * size) == i / factor
    ensures Nearest(i, factor * size, size) == factor * i
  {
    var k := i / factor;
    MulPositive(factor, size);
    assert factor * k <= i < factor * (k + 1);
    Stretches(i, size, factor, k);
    NearestExactlyWhen(i, size, factor * size, k);
    Regroups(i, factor, size);
    assert i * (factor * size) < i * (factor * size) + size;
    assert (factor * i + 1) * size == factor * i * size + size;
    NearestExactlyWhen(i, factor * size, size, factor * i);
  }

  lemma Stretches(i: nat, size: nat, factor: nat, k: nat)
    requires size > 0 && factor * k <= i < factor * (k + 1)
    ensures k * (factor * size) <= i * size < (k + 1) * (factor * size)
  {
    MulMonotone(size, factor * k, i);
    MulMonotone(size, i + 1, factor * (k + 1));
    Regroups(k, factor, size);
    Regroups(k + 1, factor, size);
    assert size * (i + 1) == size * i + size;
  }

  lemma MulPositive(a: nat, b: nat)
    requires a > 0 && b > 0
    ensures a * b > 0
  {
  }

  lemma Regroups(k: nat, factor: nat, size: nat)
    ensures k * (factor * size) == factor * k * size == size * (factor * k)
  {
  }

  lemma QuotientMonotone(a: nat, b: nat, d: nat)
    requires d > 0 && a <= b
    ensures a / d <= b / d
  {
    if a / d > b / d {
      MulMonotone(d, b / d + 1, a / d);
      assert false;
    }
  }

  /** Scaling a picture to its own size leaves it as it is. */
  lemma ScalingToSameSizeIsIdentity(out: seq<bv8>, src: seq<bv8>, w: nat, h: nat)
    requires w > 0 && h > 0 && |out| == 4 * (w * h) && |src| >= 4 * (w * h)
    requires Scales(out, w * h, src, w, h, w, h)
    ensures out == src[..4 * (w * h)]
  {
    forall k | 0 <= k < |out| ensures out[k] == src[k] {
      SamePixel(out, src, w, h, k / 4);
      assert k == 4 * (k / 4) + k % 4;
    }
  }

  lemma SamePixel(out: seq<bv8>, src: seq<bv8>, w: nat, h: nat, q: nat)
    requires w > 0 && h > 0 && q < w * h && |out| == 4 * (w * h) && |src| >= 4 * (w * h)
    requires Scales(out, w * h, src, w, h, w, h)
    ensures PixelOf(out, q) == PixelOf(src, q)
  {
    NearestIsMonotone(q / w, q / w, h, h);
    NearestIsMonotone(q % w, q % w, w, w);
    assert (q / w) * w + q % w == q;
  }
}
