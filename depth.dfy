/** The depth conversions of obrender/color.c: RrReduceDepth turns a buffer
    of canonical RrPixel32s into the pixels of an XImage, RrIncreaseDepth
    turns an XImage back into canonical pixels, and swap_byte_order flips the
    byte order of an XImage in place. Every loop nest is proved against
    `Raster.Convert` with the cell map its body applies. */
module Depth {
  import opened Bytes
  import opened Pixels
  import Raster

  datatype ByteOrder = LSBFirst | MSBFirst

  /** How a conversion ends: normally, or in g_error, which aborts. */
  datatype Status = Done | Fatal

  /** The fields of an XImage the conversions use. */
  class XImage {
    const width: nat
    const height: nat
    const bitsPerPixel: nat
    const bytesPerLine: nat
    var byteOrder: ByteOrder
    var data: array<bv8>

    constructor (width: nat, height: nat, bitsPerPixel: nat, bytesPerLine: nat, byteOrder: ByteOrder, data: array<bv8>)
      ensures this.width == width && this.height == height
      ensures this.bitsPerPixel == bitsPerPixel && this.bytesPerLine == bytesPerLine
      ensures this.byteOrder == byteOrder && this.data == data
    {
      this.width := width;
      this.height := height;
      this.bitsPerPixel := bitsPerPixel;
      this.bytesPerLine := bytesPerLine;
      this.byteOrder := byteOrder;
      this.data := data;
    }
  }

  function Flip(o: ByteOrder): ByteOrder
  {
    if o == LSBFirst then MSBFirst else LSBFirst
  }

  // ---------------------------------------------------------------------
  // Where the pixels are.

  /** The canonical buffer: rows of `width` RrPixel32s with no padding. */
  function PixelGrid(w: nat, h: nat): Raster.Grid
  {
    Raster.Grid(w, h, 4 * w, 4)
  }

  /** The pixels RrReduceDepth writes into an image of depth 32, 24, 16 or
      8. The 32-bit loop advances its output by `width` pixels per row, the
      others by `bytes_per_line` bytes (obrender/color.c:152, 172, 189, 205). */
  function ReduceGrid(im: XImage): Raster.Grid
  {
    var w, h, bpl := im.width, im.height, im.bytesPerLine;
    if im.bitsPerPixel == 32 then Raster.Grid(w, h, 4 * w, 4)
    else if im.bitsPerPixel == 24 then Raster.Grid(w, h, bpl, 3)
    else if im.bitsPerPixel == 16 then Raster.Grid(w, h, 2 * (bpl / 2), 2)
    else Raster.Grid(w, h, bpl, 1)
  }

  /** The pixels swap_byte_order rewrites: rows `bytes_per_line` apart,
      `bits_per_pixel / 8` bytes each (obrender/color.c:243, 264). */
  function SwapGrid(im: XImage): Raster.Grid
  {
    Raster.Grid(im.width, im.height, im.bytesPerLine, im.bitsPerPixel / 8)
  }

  /** The pixels RrIncreaseDepth reads from a 32- or 16-bit image: rows
      `bytes_per_line / 4` or `/ 2` words apart (obrender/color.c:297, 320). */
  function IncreaseGrid(im: XImage): Raster.Grid
  {
    if im.bitsPerPixel == 32 then Raster.Grid(im.width, im.height, 4 * (im.bytesPerLine / 4), 4)
    else Raster.Grid(im.width, im.height, 2 * (im.bytesPerLine / 2), 2)
  }

  /** The 32-bit word of pixel (y, x) in a buffer whose rows are `stride`
      bytes apart; 0 outside the buffer. */
  function Word32(src: seq<bv8>, stride: nat, y: int, x: int): bv32
  {
    var i := y * stride + 4 * x;
    if 0 <= i && i + 4 <= |src| then Load32(src, i) else 0
  }

  function Word16(src: seq<bv8>, stride: nat, y: int, x: int): bv16
  {
    var i := y * stride + 2 * x;
    if 0 <= i && i + 2 <= |src| then Load16(src, i) else 0
  }

  /** Bit x % 8 of byte x / 8 of row y, as `(p8[x / 8] >> (x % 8)) & 0x1`. */
  function Bit(src: seq<bv8>, stride: nat, y: int, x: int): bool
  {
    var i := y * stride + x / 8;
    0 <= i < |src| && (src[i] >> (x % 8)) & 1 == 1
  }

  // ---------------------------------------------------------------------
  // What each loop body does to one cell. Each map leaves a cell of the
  // wrong size alone, so that it never changes a cell's size.

  /** `p32[x] = (r << ro) + (g << go) + (b << bo)`. */
  function Reduce32Map(l: Layout, v: Visual, src: seq<bv8>, w: nat): Raster.CellMap
  {
    (y: int, x: int, c: seq<bv8>) =>
      if |c| == 4 then Bytes32(Reduce32(l, v, Word32(src, 4 * w, y, x))) else c
  }

  /** `p8[outx + roff] = r; p8[outx + goff] = g; p8[outx + boff] = b`. */
  function Reduce24Map(l: Layout, v: Visual, src: seq<bv8>, w: nat): Raster.CellMap
  {
    (y: int, x: int, c: seq<bv8>) => Reduce24(l, v, Word32(src, 4 * w, y, x), c)
  }

  /** `p16[x] = (r << ro) + (g << go) + (b << bo)` on the shortened channels. */
  function Reduce16Map(l: Layout, v: Visual, src: seq<bv8>, w: nat): Raster.CellMap
  {
    (y: int, x: int, c: seq<bv8>) =>
      if |c| == 2 then Bytes16(Reduce16(l, v, Word32(src, 4 * w, y, x))) else c
  }

  /** The 8-bit TrueColor store. */
  function Reduce8Map(l: Layout, v: Visual, src: seq<bv8>, w: nat): Raster.CellMap
  {
    (y: int, x: int, c: seq<bv8>) =>
      if |c| == 1 then [Reduce8(l, v, Word32(src, 4 * w, y, x))] else c
  }

  /** `p8[x] = RrPickColor(...)->pixel`. */
  function PickMap(l: Layout, v: Visual, src: seq<bv8>, w: nat): Raster.CellMap
  {
    (y: int, x: int, c: seq<bv8>) =>
      if |c| == 1 then [PickPixel(l, v, Word32(src, 4 * w, y, x))] else c
  }

  /** The cell map of RrReduceDepth for the image's depth. */
  function ReduceMap(l: Layout, v: Visual, src: seq<bv8>, im: XImage): Raster.CellMap
  {
    var w := im.width;
    if im.bitsPerPixel == 32 then Reduce32Map(l, v, src, w)
    else if im.bitsPerPixel == 24 then Reduce24Map(l, v, src, w)
    else if im.bitsPerPixel == 16 then Reduce16Map(l, v, src, w)
    else if v.trueColor then Reduce8Map(l, v, src, w)
    else PickMap(l, v, src, w)
  }

  /** The 32-bit case of swap_byte_order as written. */
  function PairsMap(): Raster.CellMap
  {
    (y: int, x: int, c: seq<bv8>) => if |c| == 4 then SwapPairs(c) else c
  }

  /** The 32-bit case corrected: the four bytes reversed. */
  function ReverseMap(): Raster.CellMap
  {
    (y: int, x: int, c: seq<bv8>) => if |c| == 4 then Reverse32(c) else c
  }

  function Swap16Map(): Raster.CellMap
  {
    (y: int, x: int, c: seq<bv8>) => if |c| == 2 then Swap16(c) else c
  }

  function Increase32Map(l: Layout, v: Visual, src: seq<bv8>, stride: nat): Raster.CellMap
  {
    (y: int, x: int, c: seq<bv8>) =>
      if |c| == 4 then Bytes32(Increase32(l, v, Word32(src, stride, y, x))) else c
  }

  function Increase16Map(l: Layout, v: Visual, src: seq<bv8>, stride: nat): Raster.CellMap
  {
    (y: int, x: int, c: seq<bv8>) =>
      if |c| == 4 then Bytes32(Increase16(l, v, Word16(src, stride, y, x))) else c
  }

  function Increase1Map(l: Layout, src: seq<bv8>, stride: nat): Raster.CellMap
  {
    (y: int, x: int, c: seq<bv8>) =>
      if |c| == 4 then Bytes32(Increase1(l, Bit(src, stride, y, x))) else c
  }

  /** The cell map of RrIncreaseDepth for the image's depth, reading src. */
  function IncreaseMap(l: Layout, v: Visual, src: seq<bv8>, im: XImage): Raster.CellMap
  {
    if im.bitsPerPixel == 32 then Increase32Map(l, v, src, 4 * (im.bytesPerLine / 4))
    else if im.bitsPerPixel == 16 then Increase16Map(l, v, src, 2 * (im.bytesPerLine / 2))
    else Increase1Map(l, src, im.bytesPerLine)
  }

  /** Every byte of a 3-byte pixel that a channel goes to lies inside it. */
  predicate Fits24(v: Visual)
  {
    0 <= Byte24(v.redOffset) && 0 <= Byte24(v.greenOffset) && 0 <= Byte24(v.blueOffset)
  }

  // ---------------------------------------------------------------------
  // Every map keeps the size of a cell of its grid.

  lemma ReduceSized(l: Layout, v: Visual, src: seq<bv8>, im: XImage)
    ensures Raster.Sized(ReduceGrid(im), ReduceMap(l, v, src, im))
  {
  }

  lemma SwapSized(im: XImage, corrected: bool)
    ensures Raster.Sized(SwapGrid(im), SwapMap(im, corrected))
  {
  }

  lemma IncreaseSized(l: Layout, v: Visual, src: seq<bv8>, im: XImage)
    ensures Raster.Sized(PixelGrid(im.width, im.height), IncreaseMap(l, v, src, im))
  {
  }

  // ---------------------------------------------------------------------
  // RrReduceDepth (obrender/color.c:125-224).

  /** RrReduceDepth: images of depth 32, 24, 16 and 8 are converted, any
      other depth ends in g_error. A 32-bit visual with the canonical offsets
      takes the canonical buffer itself as the image's data. */
  method ReduceDepth(l: Layout, v: Visual, data: array<bv8>, im: XImage) returns (st: Status)
    requires data != im.data
    requires Raster.Fits(PixelGrid(im.width, im.height), data.Length)
    requires im.bitsPerPixel in {32, 24, 16, 8} ==> Raster.Fits(ReduceGrid(im), im.data.Length)
    requires im.bitsPerPixel == 24 ==> Fits24(v)
    requires im.bitsPerPixel == 8 && !v.trueColor ==> |v.palette| >= Slots(v.cubeBits)
    modifies im, im.data
    ensures im.byteOrder == old(im.byteOrder)
    ensures st == Fatal <==> !(im.bitsPerPixel in {32, 24, 16, 8})
    ensures st == Fatal ==> im.data == old(im.data) && im.data[..] == old(im.data[..])
    ensures im.bitsPerPixel == 32 && SameOffsets(l, v) ==>
      im.data == data && old(im.data)[..] == old(im.data[..])
    ensures st == Done && !(im.bitsPerPixel == 32 && SameOffsets(l, v)) ==>
      im.data == old(im.data)
      && im.data[..] == Reduced(l, v, data[..], im, old(im.data[..]))
  {
    var bpp := im.bitsPerPixel;
    if bpp == 32 && v.redOffset == l.red && v.blueOffset == l.blue && v.greenOffset == l.green {
      im.data := data;
      st := Done;
    } else if bpp in {32, 24, 16, 8} {
      ReduceSized(l, v, data[..], im);
      Raster.Run(im.data, ReduceGrid(im), ReduceMap(l, v, data[..], im));
      st := Done;
    } else {
      st := Fatal;
    }
  }

  /** The image data after RrReduceDepth has rewritten the pixels of m. */
  function Reduced(l: Layout, v: Visual, src: seq<bv8>, im: XImage, m: seq<bv8>): (r: seq<bv8>)
    requires Raster.Fits(ReduceGrid(im), |m|)
    ensures |r| == |m|
  {
    ReduceSized(l, v, src, im);
    Raster.Convert(ReduceGrid(im), ReduceMap(l, v, src, im), m)
  }

  // ---------------------------------------------------------------------
  // swap_byte_order (obrender/color.c:236-271).

  /** The cell map of swap_byte_order for the image's depth; `corrected`
      chooses the reversal for 32-bit pixels over the code as written. */
  function SwapMap(im: XImage, corrected: bool): Raster.CellMap
  {
    if im.bitsPerPixel == 32 then (if corrected then ReverseMap() else PairsMap())
    else Swap16Map()
  }

  /** The image data after swap_byte_order: 32- and 16-bit pixels rewritten,
      1- and 8-bit ones left alone. */
  function Swapped(im: XImage, m: seq<bv8>, corrected: bool): (r: seq<bv8>)
    requires im.bitsPerPixel in {32, 16} ==> Raster.Fits(SwapGrid(im), |m|)
    ensures |r| == |m|
  {
    if im.bitsPerPixel in {32, 16} then
      SwapSized(im, corrected);
      Raster.Convert(SwapGrid(im), SwapMap(im, corrected), m)
    else m
  }

  /** swap_byte_order meets a pixel of a depth it does not know. */
  predicate SwapFails(im: XImage)
  {
    !(im.bitsPerPixel in {32, 16, 8, 1}) && im.width > 0 && im.height > 0
  }

  /** swap_byte_order flips the recorded byte order; a depth it does not know
      ends in g_error at the first pixel, so only when there is one. */
  method SwapByteOrder(im: XImage, corrected: bool) returns (st: Status)
    requires im.bitsPerPixel in {32, 16} ==> Raster.Fits(SwapGrid(im), im.data.Length)
    modifies im, im.data
    ensures im.data == old(im.data)
    ensures st == Fatal <==> SwapFails(im)
    ensures st == Fatal ==> im.byteOrder == old(im.byteOrder) && im.data[..] == old(im.data[..])
    ensures st == Done ==> im.byteOrder == Flip(old(im.byteOrder))
    ensures st == Done ==> im.data[..] == Swapped(im, old(im.data[..]), corrected)
  {
    var bpp := im.bitsPerPixel;
    if SwapFails(im) {
      return Fatal;
    }
    if bpp in {32, 16} {
      SwapSized(im, corrected);
      Raster.Run(im.data, SwapGrid(im), SwapMap(im, corrected));
    }
    im.byteOrder := Flip(im.byteOrder);
    st := Done;
  }

  // ---------------------------------------------------------------------
  // RrIncreaseDepth (obrender/color.c:273-340).

  /** The canonical buffer m after RrIncreaseDepth has read image data src. */
  function Increased(l: Layout, v: Visual, src: seq<bv8>, im: XImage, m: seq<bv8>): (r: seq<bv8>)
    requires Raster.Fits(PixelGrid(im.width, im.height), |m|)
    ensures |r| == |m|
  {
    IncreaseSized(l, v, src, im);
    Raster.Convert(PixelGrid(im.width, im.height), IncreaseMap(l, v, src, im), m)
  }

  /** RrIncreaseDepth: an image not in LSBFirst order is first swapped
      (`corrected` chooses the reversal for 32-bit pixels over the swap as
      written, see Findings); images of depth 32, 16 and 1 are converted into
      the canonical buffer, any other depth ends in g_error. */
  method IncreaseDepth(l: Layout, v: Visual, data: array<bv8>, im: XImage, corrected: bool) returns (st: Status)
    requires data != im.data
    requires Raster.Fits(PixelGrid(im.width, im.height), data.Length)
    requires im.bitsPerPixel in {32, 16} ==>
      Raster.Fits(SwapGrid(im), im.data.Length) && Raster.Fits(IncreaseGrid(im), im.data.Length)
    requires im.bitsPerPixel == 1 ==>
      (im.width + 7) / 8 <= im.bytesPerLine && im.height * im.bytesPerLine <= im.data.Length
    modifies im, im.data, data
    ensures im.data == old(im.data)
    ensures st == Fatal <==> !(im.bitsPerPixel in {32, 16, 1})
    ensures st == Fatal ==> data[..] == old(data[..]) && im.data[..] == old(im.data[..])
    ensures st == Fatal ==>
      im.byteOrder == (if old(im.byteOrder) == LSBFirst || SwapFails(im) then old(im.byteOrder) else LSBFirst)
    ensures st == Done ==> im.byteOrder == LSBFirst
    ensures st == Done ==>
      im.data[..] == (if old(im.byteOrder) == LSBFirst then old(im.data[..]) else Swapped(im, old(im.data[..]), corrected))
    ensures st == Done ==> data[..] == Increased(l, v, im.data[..], im, old(data[..]))
  {
    if im.byteOrder != LSBFirst {
      st := SwapByteOrder(im, corrected);
      if st == Fatal {
        return;
      }
    }
    var bpp := im.bitsPerPixel;
    if bpp in {32, 16, 1} {
      IncreaseSized(l, v, im.data[..], im);
      Raster.Run(data, PixelGrid(im.width, im.height), IncreaseMap(l, v, im.data[..], im));
      st := Done;
    } else {
      st := Fatal;
    }
  }

  // ---------------------------------------------------------------------
  // What the converted images hold, pixel by pixel.

  /** Pixel (y, x) of a 32-bit reduction is the device pixel of canonical
      pixel (y, x). */
  lemma Reduced32Word(l: Layout, v: Visual, src: seq<bv8>, im: XImage, m: seq<bv8>, y: int, x: int)
    requires im.bitsPerPixel == 32 && Raster.Fits(ReduceGrid(im), |m|)
    requires 0 <= y < im.height && 0 <= x < im.width
    ensures var s := Raster.Start(ReduceGrid(im), y, x);
      0 <= s && s + 4 <= |m| && Load32(Reduced(l, v, src, im, m), s) == Reduce32(l, v, Word32(src, 4 * im.width, y, x))
  {
    var g, f := ReduceGrid(im), ReduceMap(l, v, src, im);
    ReduceSized(l, v, src, im);
    Raster.ConvertAt(g, f, m, y, x);
    var s, out := Raster.Start(g, y, x), Reduced(l, v, src, im, m);
    LoadSlice32(out, s);
  }

  /** A pixel of a 32-bit reduction holds the canonical channels at the
      device offsets. */
  lemma Reduced32Pixel(l: Layout, v: Visual, src: seq<bv8>, im: XImage, m: seq<bv8>, y: int, x: int)
    requires im.bitsPerPixel == 32 && Raster.Fits(ReduceGrid(im), |m|) && ByteChannels(v)
    requires 0 <= y < im.height && 0 <= x < im.width
    ensures var s := Raster.Start(ReduceGrid(im), y, x);
      0 <= s && s + 4 <= |m| &&
      var q, p := Load32(Reduced(l, v, src, im, m), s), Word32(src, 4 * im.width, y, x);
      Chan(q, v.redOffset) == Chan(p, l.red) && Chan(q, v.greenOffset) == Chan(p, l.green)
      && Chan(q, v.blueOffset) == Chan(p, l.blue)
  {
    Reduced32Word(l, v, src, im, m, y, x);
    var p := Word32(src, 4 * im.width, y, x);
    Reduce32Channels(l, v, p);
  }

  /** The three bytes of a 24-bit pixel: each channel in the byte its offset
      names, and red, green, blue in that order for the usual visual. */
  lemma Reduced24Pixel(l: Layout, v: Visual, src: seq<bv8>, im: XImage, m: seq<bv8>, y: int, x: int)
    requires im.bitsPerPixel == 24 && Raster.Fits(ReduceGrid(im), |m|) && Fits24(v)
    requires Byte24(v.redOffset) != Byte24(v.greenOffset) && Byte24(v.redOffset) != Byte24(v.blueOffset)
    requires Byte24(v.greenOffset) != Byte24(v.blueOffset)
    requires 0 <= y < im.height && 0 <= x < im.width
    ensures var s := Raster.Start(ReduceGrid(im), y, x);
      0 <= s && s + 3 <= |m| &&
      var out, p := Reduced(l, v, src, im, m), Word32(src, 4 * im.width, y, x);
      out[s + Byte24(v.redOffset)] == Low8(Chan(p, l.red))
      && out[s + Byte24(v.greenOffset)] == Low8(Chan(p, l.green))
      && out[s + Byte24(v.blueOffset)] == Low8(Chan(p, l.blue))
  {
    var g, f := ReduceGrid(im), ReduceMap(l, v, src, im);
    ReduceSized(l, v, src, im);
    Raster.ConvertAt(g, f, m, y, x);
    var s, out := Raster.Start(g, y, x), Reduced(l, v, src, im, m);
    var p, c := Word32(src, 4 * im.width, y, x), m[s..s + 3];
    Reduce24Bytes(l, v, p, c);
    assert out[s..s + 3] == Reduce24(l, v, p, c);
  }

  /** Pixel (y, x) of a 16-bit reduction is the device pixel of canonical
      pixel (y, x). */
  lemma Reduced16Word(l: Layout, v: Visual, src: seq<bv8>, im: XImage, m: seq<bv8>, y: int, x: int)
    requires im.bitsPerPixel == 16 && Raster.Fits(ReduceGrid(im), |m|)
    requires 0 <= y < im.height && 0 <= x < im.width
    ensures var s := Raster.Start(ReduceGrid(im), y, x);
      0 <= s && s + 2 <= |m| && Load16(Reduced(l, v, src, im, m), s) == Reduce16(l, v, Word32(src, 4 * im.width, y, x))
  {
    var g, f := ReduceGrid(im), ReduceMap(l, v, src, im);
    ReduceSized(l, v, src, im);
    Raster.ConvertAt(g, f, m, y, x);
    var s, out := Raster.Start(g, y, x), Reduced(l, v, src, im, m);
    LoadSlice16(out, s);
  }

  /** On a 5-6-5 visual each field of a 16-bit pixel keeps the top
      5, 6 and 5 bits of red, green and blue of its canonical pixel. */
  lemma Reduced565Pixel(l: Layout, src: seq<bv8>, im: XImage, m: seq<bv8>, y: int, x: int,
                        tc: bool, cb: CubeBits, pal: seq<nat>)
    requires im.bitsPerPixel == 16 && Raster.Fits(ReduceGrid(im), |m|)
    requires 0 <= y < im.height && 0 <= x < im.width
    ensures var s, v := Raster.Start(ReduceGrid(im), y, x), Visual565(tc, cb, pal);
      0 <= s && s + 2 <= |m| &&
      var q, p := Load16(Reduced(l, v, src, im, m), s), Word32(src, 4 * im.width, y, x);
      Field16(q, v.redMask, v.redOffset, v.redShift) == Chan(p, l.red) & 0xF8
      && Field16(q, v.greenMask, v.greenOffset, v.greenShift) == Chan(p, l.green) & 0xFC
      && Field16(q, v.blueMask, v.blueOffset, v.blueShift) == Chan(p, l.blue) & 0xF8
  {
    var v := Visual565(tc, cb, pal);
    Reduced16Word(l, v, src, im, m, y, x);
    var p := Word32(src, 4 * im.width, y, x);
    Reduce565(l, p, tc, cb, pal);
  }

  /** On a 5-5-5 visual each field of a 16-bit pixel keeps the top
      5 bits of red, green and blue of its canonical pixel. */
  lemma Reduced555Pixel(l: Layout, src: seq<bv8>, im: XImage, m: seq<bv8>, y: int, x: int,
                        tc: bool, cb: CubeBits, pal: seq<nat>)
    requires im.bitsPerPixel == 16 && Raster.Fits(ReduceGrid(im), |m|)
    requires 0 <= y < im.height && 0 <= x < im.width
    ensures var s, v := Raster.Start(ReduceGrid(im), y, x), Visual555(tc, cb, pal);
      0 <= s && s + 2 <= |m| &&
      var q, p := Load16(Reduced(l, v, src, im, m), s), Word32(src, 4 * im.width, y, x);
      Field16(q, v.redMask, v.redOffset, v.redShift) == Chan(p, l.red) & 0xF8
      && Field16(q, v.greenMask, v.greenOffset, v.greenShift) == Chan(p, l.green) & 0xF8
      && Field16(q, v.blueMask, v.blueOffset, v.blueShift) == Chan(p, l.blue) & 0xF8
  {
    var v := Visual555(tc, cb, pal);
    Reduced16Word(l, v, src, im, m, y, x);
    var p := Word32(src, 4 * im.width, y, x);
    Reduce555(l, p, tc, cb, pal);
  }

  /** Pixel (y, x) of an 8-bit reduction: the shortened channels of a
      TrueColor visual, or the low byte of the palette pixel picked for the
      color. */
  lemma Reduced8Pixel(l: Layout, v: Visual, src: seq<bv8>, im: XImage, m: seq<bv8>, y: int, x: int)
    requires im.bitsPerPixel == 8 && Raster.Fits(ReduceGrid(im), |m|)
    requires 0 <= y < im.height && 0 <= x < im.width
    ensures var s := Raster.Start(ReduceGrid(im), y, x);
      0 <= s && s < |m| &&
      var q, p := Reduced(l, v, src, im, m)[s], Word32(src, 4 * im.width, y, x);
      q == if v.trueColor then Reduce8(l, v, p) else PickPixel(l, v, p)
  {
    var g, f := ReduceGrid(im), ReduceMap(l, v, src, im);
    ReduceSized(l, v, src, im);
    Raster.ConvertAt(g, f, m, y, x);
    var s, out := Raster.Start(g, y, x), Reduced(l, v, src, im, m);
    assert out[s] == out[s..s + 1][0];
  }

  /** Swapping twice gives back the image data, as written and corrected. */
  lemma SwapTwice(im: XImage, m: seq<bv8>, corrected: bool)
    requires im.bitsPerPixel in {32, 16} ==> Raster.Fits(SwapGrid(im), |m|)
    ensures Swapped(im, Swapped(im, m, corrected), corrected) == m
  {
    if im.bitsPerPixel in {32, 16} {
      var g, f := SwapGrid(im), SwapMap(im, corrected);
      SwapSized(im, corrected);
      assert forall y, x, c :: |c| == g.cell ==> f(y, x, f(y, x, c)) == c;
      Raster.ConvertTwice(g, f, m);
    }
  }

  /** The corrected swap turns each 32-bit pixel stored most significant
      byte first into the same word in this host's order. */
  lemma Swapped32Word(im: XImage, m: seq<bv8>, y: int, x: int)
    requires im.bitsPerPixel == 32 && Raster.Fits(SwapGrid(im), |m|)
    requires 0 <= y < im.height && 0 <= x < im.width
    ensures var s := Raster.Start(SwapGrid(im), y, x);
      0 <= s && s + 4 <= |m| && Load32(Swapped(im, m, true), s) == Load32BigEndian(m, s)
  {
    var g, f := SwapGrid(im), SwapMap(im, true);
    SwapSized(im, true);
    Raster.ConvertAt(g, f, m, y, x);
    var s, out := Raster.Start(g, y, x), Swapped(im, m, true);
    ReversedWord(out, m, s);
  }

  /** Four bytes that hold m's word reversed read as that word. */
  lemma ReversedWord(out: seq<bv8>, m: seq<bv8>, s: int)
    requires 0 <= s && s + 4 <= |out| && s + 4 <= |m| && out[s..s + 4] == Reverse32(m[s..s + 4])
    ensures Load32(out, s) == Load32BigEndian(m, s)
  {
    LoadSlice32(out, s);
    assert Load32BigEndian(m, s) == Load32BigEndian(m[s..s + 4], 0);
  }

  /** The swap as written turns each 32-bit pixel into the word of its byte
      pairs exchanged, which is not the word an MSBFirst image stores
      (SwapPairsMisreads). */
  lemma SwappedPairsWord(im: XImage, m: seq<bv8>, y: int, x: int)
    requires im.bitsPerPixel == 32 && Raster.Fits(SwapGrid(im), |m|)
    requires 0 <= y < im.height && 0 <= x < im.width
    ensures var s := Raster.Start(SwapGrid(im), y, x);
      0 <= s && s + 4 <= |m| && Swapped(im, m, false)[s..s + 4] == [m[s + 1], m[s], m[s + 3], m[s + 2]]
  {
    var g, f := SwapGrid(im), SwapMap(im, false);
    SwapSized(im, false);
    Raster.ConvertAt(g, f, m, y, x);
  }

  /** The 16-bit swap exchanges the two bytes of every pixel. */
  lemma Swapped16Word(im: XImage, m: seq<bv8>, y: int, x: int, corrected: bool)
    requires im.bitsPerPixel == 16 && Raster.Fits(SwapGrid(im), |m|)
    requires 0 <= y < im.height && 0 <= x < im.width
    ensures var s := Raster.Start(SwapGrid(im), y, x);
      0 <= s && s + 2 <= |m| && Swapped(im, m, corrected)[s..s + 2] == [m[s + 1], m[s]]
  {
    var g, f := SwapGrid(im), SwapMap(im, corrected);
    SwapSized(im, corrected);
    Raster.ConvertAt(g, f, m, y, x);
  }

  /** Four bytes that store w are read back as w. */
  lemma StoredWord(out: seq<bv8>, s: int, w: bv32)
    requires 0 <= s && s + 4 <= |out| && out[s..s + 4] == Bytes32(w)
    ensures Load32(out, s) == w
  {
    LoadSlice32(out, s);
  }

  /** Pixel (y, x) of the canonical buffer after a 32-bit increase is the
      canonical pixel of image pixel (y, x). */
  lemma Increased32Word(l: Layout, v: Visual, src: seq<bv8>, im: XImage, m: seq<bv8>, y: int, x: int)
    requires im.bitsPerPixel == 32 && Raster.Fits(PixelGrid(im.width, im.height), |m|)
    requires 0 <= y < im.height && 0 <= x < im.width
    ensures var s := Raster.Start(PixelGrid(im.width, im.height), y, x);
      0 <= s && s + 4 <= |m|
      && Load32(Increased(l, v, src, im, m), s) == Increase32(l, v, Word32(src, 4 * (im.bytesPerLine / 4), y, x))
  {
    var g, f := PixelGrid(im.width, im.height), IncreaseMap(l, v, src, im);
    IncreaseSized(l, v, src, im);
    Raster.ConvertAt(g, f, m, y, x);
    var s, out := Raster.Start(g, y, x), Increased(l, v, src, im, m);
    LoadSlice32(out, s);
  }

  /** A 32-bit increase puts the device channels at the canonical offsets
      and makes every pixel opaque. */
  lemma Increased32Pixel(l: Layout, v: Visual, src: seq<bv8>, im: XImage, m: seq<bv8>, y: int, x: int)
    requires im.bitsPerPixel == 32 && Raster.Fits(PixelGrid(im.width, im.height), |m|) && Canonical(l)
    requires 0 <= y < im.height && 0 <= x < im.width
    ensures var s := Raster.Start(PixelGrid(im.width, im.height), y, x);
      0 <= s && s + 4 <= |m| &&
      var q, p := Load32(Increased(l, v, src, im, m), s), Word32(src, 4 * (im.bytesPerLine / 4), y, x);
      Chan(q, l.red) == Chan(p, v.redOffset) && Chan(q, l.green) == Chan(p, v.greenOffset)
      && Chan(q, l.blue) == Chan(p, v.blueOffset) && Chan(q, l.alpha) == 0xFF
  {
    Increased32Word(l, v, src, im, m, y, x);
    var p := Word32(src, 4 * (im.bytesPerLine / 4), y, x);
    Increase32Channels(l, v, p);
  }

  lemma Increased16Word(l: Layout, v: Visual, src: seq<bv8>, im: XImage, m: seq<bv8>, y: int, x: int)
    requires im.bitsPerPixel == 16 && Raster.Fits(PixelGrid(im.width, im.height), |m|)
    requires 0 <= y < im.height && 0 <= x < im.width
    ensures var s := Raster.Start(PixelGrid(im.width, im.height), y, x);
      0 <= s && s + 4 <= |m|
      && Load32(Increased(l, v, src, im, m), s) == Increase16(l, v, Word16(src, 2 * (im.bytesPerLine / 2), y, x))
  {
    var g, f := PixelGrid(im.width, im.height), IncreaseMap(l, v, src, im);
    IncreaseSized(l, v, src, im);
    Raster.ConvertAt(g, f, m, y, x);
    var s, out := Raster.Start(g, y, x), Increased(l, v, src, im, m);
    var w := Increase16(l, v, Word16(src, 2 * (im.bytesPerLine / 2), y, x));
    assert out[s..s + 4] == Bytes32(w);
    StoredWord(out, s, w);
  }

  /** A 16-bit increase puts each masked, moved field at its canonical
      offset, as long as it fits a byte, and makes every pixel opaque. */
  lemma Increased16Pixel(l: Layout, v: Visual, src: seq<bv8>, im: XImage, m: seq<bv8>, y: int, x: int)
    requires im.bitsPerPixel == 16 && Raster.Fits(PixelGrid(im.width, im.height), |m|) && Canonical(l)
    requires 0 <= y < im.height && 0 <= x < im.width
    requires var q := Word16(src, 2 * (im.bytesPerLine / 2), y, x);
      Field16(q, v.redMask, v.redOffset, v.redShift) < 256
      && Field16(q, v.greenMask, v.greenOffset, v.greenShift) < 256
      && Field16(q, v.blueMask, v.blueOffset, v.blueShift) < 256
    ensures var s := Raster.Start(PixelGrid(im.width, im.height), y, x);
      0 <= s && s + 4 <= |m| &&
      var c, q := Load32(Increased(l, v, src, im, m), s), Word16(src, 2 * (im.bytesPerLine / 2), y, x);
      Chan(c, l.red) == Field16(q, v.redMask, v.redOffset, v.redShift)
      && Chan(c, l.green) == Field16(q, v.greenMask, v.greenOffset, v.greenShift)
      && Chan(c, l.blue) == Field16(q, v.blueMask, v.blueOffset, v.blueShift)
      && Chan(c, l.alpha) == 0xFF
  {
    Increased16Word(l, v, src, im, m, y, x);
    var q := Word16(src, 2 * (im.bytesPerLine / 2), y, x);
    Increase16Channels(l, v, q);
  }

  /** A 1-bit increase makes clear bits opaque black and set bits opaque
      white. */
  lemma Increased1Pixel(l: Layout, v: Visual, src: seq<bv8>, im: XImage, m: seq<bv8>, y: int, x: int)
    requires im.bitsPerPixel == 1 && Raster.Fits(PixelGrid(im.width, im.height), |m|) && Canonical(l)
    requires 0 <= y < im.height && 0 <= x < im.width
    ensures var s := Raster.Start(PixelGrid(im.width, im.height), y, x);
      0 <= s && s + 4 <= |m| &&
      var c, bit := Load32(Increased(l, v, src, im, m), s), Bit(src, im.bytesPerLine, y, x);
      Chan(c, l.alpha) == 0xFF && Chan(c, l.red) == (if bit then 0xFF else 0)
      && Chan(c, l.green) == (if bit then 0xFF else 0) && Chan(c, l.blue) == (if bit then 0xFF else 0)
  {
    var g, f := PixelGrid(im.width, im.height), IncreaseMap(l, v, src, im);
    IncreaseSized(l, v, src, im);
    Raster.ConvertAt(g, f, m, y, x);
    var s, out := Raster.Start(g, y, x), Increased(l, v, src, im, m);
    LoadSlice32(out, s);
    var bit := Bit(src, im.bytesPerLine, y, x);
    Increase1Colors(l, bit);
  }

  /** After the corrected swap, a 32-bit MSBFirst image whose rows are whole
      words apart is read pixel by pixel as the words it stores. */
  lemma IncreaseReadsMSBFirst(im: XImage, m: seq<bv8>, y: int, x: int)
    requires im.bitsPerPixel == 32 && Raster.Fits(SwapGrid(im), |m|) && im.bytesPerLine % 4 == 0
    requires 0 <= y < im.height && 0 <= x < im.width
    ensures var s := Raster.Start(SwapGrid(im), y, x);
      0 <= s && s + 4 <= |m|
      && Word32(Swapped(im, m, true), 4 * (im.bytesPerLine / 4), y, x) == Load32BigEndian(m, s)
  {
    var g, f := SwapGrid(im), SwapMap(im, true);
    assert 4 * (im.bytesPerLine / 4) == g.stride;
    SwapSized(im, true);
    Raster.ConvertAt(g, f, m, y, x);
    var s, out := Raster.Start(g, y, x), Swapped(im, m, true);
    ReversedWord(out, m, s);
    assert Word32(out, g.stride, y, x) == Load32(out, s);
  }

  /** The swap as written makes a 32-bit MSBFirst image read, pixel by
      pixel, as the stored words with their halves exchanged. */
  lemma IncreaseReadsPairs(im: XImage, m: seq<bv8>, y: int, x: int)
    requires im.bitsPerPixel == 32 && Raster.Fits(SwapGrid(im), |m|) && im.bytesPerLine % 4 == 0
    requires 0 <= y < im.height && 0 <= x < im.width
    ensures var s := Raster.Start(SwapGrid(im), y, x);
      0 <= s && s + 4 <= |m|
      && Word32(Swapped(im, m, false), 4 * (im.bytesPerLine / 4), y, x) == HalvesExchanged(Load32BigEndian(m, s))
  {
    var g, f := SwapGrid(im), SwapMap(im, false);
    assert 4 * (im.bytesPerLine / 4) == g.stride;
    SwapSized(im, false);
    Raster.ConvertAt(g, f, m, y, x);
    var s, out := Raster.Start(g, y, x), Swapped(im, m, false);
    PairsWord(out, m, s);
    assert Word32(out, g.stride, y, x) == Load32(out, s);
  }

  /** Four bytes that hold the pairs of m's word exchanged read as that
      word with its halves exchanged. */
  lemma PairsWord(out: seq<bv8>, m: seq<bv8>, s: int)
    requires 0 <= s && s + 4 <= |out| && s + 4 <= |m| && out[s..s + 4] == SwapPairs(m[s..s + 4])
    ensures Load32(out, s) == HalvesExchanged(Load32BigEndian(m, s))
  {
    LoadSlice32(out, s);
    assert Load32BigEndian(m, s) == Load32BigEndian(m[s..s + 4], 0);
  }

  /** RrIncreaseDepth as written, on a 32-bit MSBFirst image whose rows are
      whole words apart: each canonical pixel is made from the stored word
      with its halves exchanged, so its channels come from the wrong bytes. */
  lemma IncreasedAsWritten32(l: Layout, v: Visual, im: XImage, m: seq<bv8>, n: seq<bv8>, y: int, x: int)
    requires im.bitsPerPixel == 32 && Raster.Fits(SwapGrid(im), |m|) && im.bytesPerLine % 4 == 0
    requires Raster.Fits(PixelGrid(im.width, im.height), |n|)
    requires 0 <= y < im.height && 0 <= x < im.width
    ensures var s, t := Raster.Start(SwapGrid(im), y, x), Raster.Start(PixelGrid(im.width, im.height), y, x);
      0 <= s && s + 4 <= |m| && 0 <= t && t + 4 <= |n|
      && Load32(Increased(l, v, Swapped(im, m, false), im, n), t) == Increase32(l, v, HalvesExchanged(Load32BigEndian(m, s)))
  {
    IncreaseReadsPairs(im, m, y, x);
    Increased32Word(l, v, Swapped(im, m, false), im, n, y, x);
  }

  /** RrIncreaseDepth after RrReduceDepth, on a 32-bit image without row
      padding, gives back the color of every canonical pixel and makes it
      opaque. */
  lemma RoundTrip32Image(l: Layout, v: Visual, src: seq<bv8>, im: XImage, m: seq<bv8>, n: seq<bv8>, y: int, x: int)
    requires im.bitsPerPixel == 32 && im.bytesPerLine == 4 * im.width
    requires Canonical(l) && ByteChannels(v)
    requires Raster.Fits(PixelGrid(im.width, im.height), |src|)
    requires Raster.Fits(ReduceGrid(im), |m|) && Raster.Fits(PixelGrid(im.width, im.height), |n|)
    requires 0 <= y < im.height && 0 <= x < im.width
    ensures var s := Raster.Start(PixelGrid(im.width, im.height), y, x);
      0 <= s && s + 4 <= |src| && s + 4 <= |n| &&
      var c, p := Load32(Increased(l, v, Reduced(l, v, src, im, m), im, n), s), Load32(src, s);
      Chan(c, l.red) == Chan(p, l.red) && Chan(c, l.green) == Chan(p, l.green)
      && Chan(c, l.blue) == Chan(p, l.blue) && Chan(c, l.alpha) == 0xFF
  {
    var g := PixelGrid(im.width, im.height);
    Raster.CellFits(g, |src|, y, x);
    var s := Raster.Start(g, y, x);
    assert 4 * (im.bytesPerLine / 4) == g.stride;
    var red := Reduced(l, v, src, im, m);
    Reduced32Word(l, v, src, im, m, y, x);
    var p, q := Word32(src, g.stride, y, x), Word32(red, g.stride, y, x);
    assert p == Load32(src, s) && q == Load32(red, s);
    Increased32Word(l, v, red, im, n, y, x);
    RoundTrip32(l, v, p);
  }
}
