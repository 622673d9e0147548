/** Single pixels: the canonical RrPixel32 format, the device format a
    visual describes, and the per-pixel arithmetic of the depth conversions
    in obrender/color.c. Every shift, mask and sum is on 32-bit words, the
    width of the C expressions; stores into 16- and 8-bit pixels keep the low
    bits. */
module Pixels {
  import opened Bytes
  import opened Arith

  /** A shift amount inside a 32-bit word. */
  type Shift = bv5

  /** Bits per channel of the pseudo-color cube (RrPseudoBPC). */
  type CubeBits = n: nat | n <= 8

  /** Where the canonical RrPixel32 format keeps each channel:
      RrDefaultRedOffset, RrDefaultGreenOffset, RrDefaultBlueOffset and
      RrDefaultAlphaOffset. */
  datatype Layout = Layout(red: Shift, green: Shift, blue: Shift, alpha: Shift)

  /** What the renderer instance knows of the visual: the device channel
      offsets (RrRedOffset ...), the number of low bits each channel loses
      (RrRedShift ...), the 16-bit channel masks (RrRedMask ...), whether the
      visual is TrueColor, and the pseudo-color cube with its palette pixels
      (RrPseudoBPC, RrPseudoColors). */
  datatype Visual = Visual(
    redOffset: Shift, greenOffset: Shift, blueOffset: Shift,
    redShift: Shift, greenShift: Shift, blueShift: Shift,
    redMask: bv32, greenMask: bv32, blueMask: bv32,
    trueColor: bool, cubeBits: CubeBits, palette: seq<nat>)

  predicate Aligned(n: Shift)
  {
    n % 8 == 0
  }

  /** The canonical offsets are four different whole bytes. */
  predicate Canonical(l: Layout)
  {
    Aligned(l.red) && Aligned(l.green) && Aligned(l.blue) && Aligned(l.alpha)
    && l.red != l.green && l.red != l.blue && l.red != l.alpha
    && l.green != l.blue && l.green != l.alpha && l.blue != l.alpha
  }

  /** The device keeps each channel in a whole byte of its own, as 24- and
      32-bit TrueColor visuals do. */
  predicate ByteChannels(v: Visual)
  {
    Aligned(v.redOffset) && Aligned(v.greenOffset) && Aligned(v.blueOffset)
    && v.redOffset != v.greenOffset && v.redOffset != v.blueOffset
    && v.greenOffset != v.blueOffset
  }

  /** The device offsets are the canonical ones: the 32-bit reduction then
      hands the canonical buffer over unchanged. */
  predicate SameOffsets(l: Layout, v: Visual)
  {
    v.redOffset == l.red && v.greenOffset == l.green && v.blueOffset == l.blue
  }

  /** The byte of p at offset off, as `(p >> off) & 0xff`. */
  function Chan(p: bv32, off: Shift): (c: bv32)
    ensures c < 256
  {
    (p >> off) & 0xFF
  }

  // ---------------------------------------------------------------------
  // Byte algebra: sums of bytes placed at different whole-byte offsets.

  /** A byte placed at a whole-byte offset is read back there. */
  lemma ChanAtSelf(r: bv32, at: Shift)
    requires r < 256 && Aligned(at)
    ensures Chan(r << at, at) == r
  {
  }

  /** ... and reads as zero at every other whole-byte offset. */
  lemma ChanAtOther(r: bv32, at: Shift, off: Shift)
    requires r < 256 && Aligned(at) && Aligned(off) && at != off
    ensures Chan(r << at, off) == 0
  {
  }

  /** Three bytes added together at the given offsets. */
  function Pack3(r: bv32, g: bv32, b: bv32, R: Shift, G: Shift, B: Shift): bv32
  {
    (r << R) + (g << G) + (b << B)
  }

  /** Four bytes added together at the given offsets. */
  function Pack4(r: bv32, g: bv32, b: bv32, a: bv32, R: Shift, G: Shift, B: Shift, A: Shift): bv32
  {
    (r << R) + (g << G) + (b << B) + (a << A)
  }

  /** Bytes at different whole-byte offsets do not carry into each other. */
  lemma Pack3IsOr(r: bv32, g: bv32, b: bv32, R: Shift, G: Shift, B: Shift)
    requires r < 256 && g < 256 && b < 256
    requires Aligned(R) && Aligned(G) && Aligned(B) && R != G && R != B && G != B
    ensures Pack3(r, g, b, R, G, B) == (r << R) | (g << G) | (b << B)
  {
  }

  lemma Pack4IsOr(r: bv32, g: bv32, b: bv32, a: bv32, R: Shift, G: Shift, B: Shift, A: Shift)
    requires r < 256 && g < 256 && b < 256 && a < 256
    requires Aligned(R) && Aligned(G) && Aligned(B) && Aligned(A)
    requires R != G && R != B && R != A && G != B && G != A && B != A
    ensures Pack4(r, g, b, a, R, G, B, A) == (r << R) | (g << G) | (b << B) | (a << A)
  {
  }

  // The lemmas below take only variables: handing shifted words to a lemma
  // as arguments makes the solver's work grow sharply.

  /** A byte of an or of three shifted bytes is the or of their bytes. */
  lemma ChanOr3(r: bv32, g: bv32, b: bv32, R: Shift, G: Shift, B: Shift, off: Shift)
    ensures Chan((r << R) | (g << G) | (b << B), off) == Chan(r << R, off) | Chan(g << G, off) | Chan(b << B, off)
  {
  }

  lemma ChanOr4(r: bv32, g: bv32, b: bv32, a: bv32, R: Shift, G: Shift, B: Shift, A: Shift, off: Shift)
    ensures Chan((r << R) | (g << G) | (b << B) | (a << A), off)
         == Chan(r << R, off) | Chan(g << G, off) | Chan(b << B, off) | Chan(a << A, off)
  {
  }

  lemma ChanPack3(r: bv32, g: bv32, b: bv32, R: Shift, G: Shift, B: Shift, off: Shift)
    requires r < 256 && g < 256 && b < 256
    requires Aligned(R) && Aligned(G) && Aligned(B) && R != G && R != B && G != B
    ensures Chan(Pack3(r, g, b, R, G, B), off) == Chan((r << R) | (g << G) | (b << B), off)
  {
    Pack3IsOr(r, g, b, R, G, B);
  }

  lemma ChanPack4(r: bv32, g: bv32, b: bv32, a: bv32, R: Shift, G: Shift, B: Shift, A: Shift, off: Shift)
    requires r < 256 && g < 256 && b < 256 && a < 256
    requires Aligned(R) && Aligned(G) && Aligned(B) && Aligned(A)
    requires R != G && R != B && R != A && G != B && G != A && B != A
    ensures Chan(Pack4(r, g, b, a, R, G, B, A), off) == Chan((r << R) | (g << G) | (b << B) | (a << A), off)
  {
    Pack4IsOr(r, g, b, a, R, G, B, A);
  }

  /** The byte at offset R of three packed bytes is the one placed there. */
  lemma Unpack3At(r: bv32, g: bv32, b: bv32, R: Shift, G: Shift, B: Shift)
    requires r < 256 && g < 256 && b < 256
    requires Aligned(R) && Aligned(G) && Aligned(B) && R != G && R != B && G != B
    ensures Chan(Pack3(r, g, b, R, G, B), R) == r
  {
    ChanPack3(r, g, b, R, G, B, R);
    ChanOr3(r, g, b, R, G, B, R);
    ChanAtSelf(r, R);
    ChanAtOther(g, G, R);
    ChanAtOther(b, B, R);
  }

  lemma Unpack4At(r: bv32, g: bv32, b: bv32, a: bv32, R: Shift, G: Shift, B: Shift, A: Shift)
    requires r < 256 && g < 256 && b < 256 && a < 256
    requires Aligned(R) && Aligned(G) && Aligned(B) && Aligned(A)
    requires R != G && R != B && R != A && G != B && G != A && B != A
    ensures Chan(Pack4(r, g, b, a, R, G, B, A), R) == r
  {
    ChanPack4(r, g, b, a, R, G, B, A, R);
    ChanOr4(r, g, b, a, R, G, B, A, R);
    ChanAtSelf(r, R);
    ChanAtOther(g, G, R);
    ChanAtOther(b, B, R);
    ChanAtOther(a, A, R);
  }

  /** Pack3 and Pack4 do not depend on the order their bytes are listed in. */
  lemma Pack3Rotate(r: bv32, g: bv32, b: bv32, R: Shift, G: Shift, B: Shift)
    ensures Pack3(r, g, b, R, G, B) == Pack3(g, b, r, G, B, R)
  {
  }

  lemma Pack4Rotate(r: bv32, g: bv32, b: bv32, a: bv32, R: Shift, G: Shift, B: Shift, A: Shift)
    ensures Pack4(r, g, b, a, R, G, B, A) == Pack4(g, b, a, r, G, B, A, R)
  {
  }

  /** All three bytes read back from three packed bytes. */
  lemma Unpack3All(r: bv32, g: bv32, b: bv32, R: Shift, G: Shift, B: Shift)
    requires r < 256 && g < 256 && b < 256
    requires Aligned(R) && Aligned(G) && Aligned(B) && R != G && R != B && G != B
    ensures Chan(Pack3(r, g, b, R, G, B), R) == r
    ensures Chan(Pack3(r, g, b, R, G, B), G) == g
    ensures Chan(Pack3(r, g, b, R, G, B), B) == b
  {
    Unpack3At(r, g, b, R, G, B);
    Pack3Rotate(r, g, b, R, G, B);
    Unpack3At(g, b, r, G, B, R);
    Pack3Rotate(g, b, r, G, B, R);
    Unpack3At(b, r, g, B, R, G);
  }

  /** All four bytes read back from four packed bytes. */
  lemma Unpack4All(r: bv32, g: bv32, b: bv32, a: bv32, R: Shift, G: Shift, B: Shift, A: Shift)
    requires r < 256 && g < 256 && b < 256 && a < 256
    requires Aligned(R) && Aligned(G) && Aligned(B) && Aligned(A)
    requires R != G && R != B && R != A && G != B && G != A && B != A
    ensures Chan(Pack4(r, g, b, a, R, G, B, A), R) == r
    ensures Chan(Pack4(r, g, b, a, R, G, B, A), G) == g
    ensures Chan(Pack4(r, g, b, a, R, G, B, A), B) == b
    ensures Chan(Pack4(r, g, b, a, R, G, B, A), A) == a
  {
    Unpack4At(r, g, b, a, R, G, B, A);
    Pack4Rotate(r, g, b, a, R, G, B, A);
    Unpack4At(g, b, a, r, G, B, A, R);
    Pack4Rotate(g, b, a, r, G, B, A, R);
    Unpack4At(b, a, r, g, B, A, R, G);
    Pack4Rotate(b, a, r, g, B, A, R, G);
    Unpack4At(a, r, g, b, A, R, G, B);
  }

  // ---------------------------------------------------------------------
  // RrReduceDepth, one pixel.

  /** A 32-bit device pixel: the canonical channels moved to the device
      offsets (obrender/color.c:145-148). */
  function Reduce32(l: Layout, v: Visual, p: bv32): bv32
  {
    Pack3(Chan(p, l.red), Chan(p, l.green), Chan(p, l.blue), v.redOffset, v.greenOffset, v.blueOffset)
  }

  /** The canonical channels with their low bits dropped and moved to the
      device offsets, before the store narrows it (obrender/color.c:180-186,
      196-202). */
  function Scaled(l: Layout, v: Visual, p: bv32): bv32
  {
    Scale3(Chan(p, l.red), Chan(p, l.green), Chan(p, l.blue), v)
  }

  /** Three channel values, each cut by its shift and moved to its offset. */
  function Scale3(r: bv32, g: bv32, b: bv32, v: Visual): bv32
  {
    Pack3(r >> v.redShift, g >> v.greenShift, b >> v.blueShift, v.redOffset, v.greenOffset, v.blueOffset)
  }

  function Reduce16(l: Layout, v: Visual, p: bv32): bv16
  {
    Low16(Scaled(l, v, p))
  }

  function Reduce8(l: Layout, v: Visual, p: bv32): bv8
  {
    Low8(Scaled(l, v, p))
  }

  /** C's `/` on int, which truncates toward zero. */
  function CDiv(a: int, b: nat): int
    requires b > 0
  {
    if a >= 0 then a / b else -((-a) / b)
  }

  /** The byte of a 3-byte pixel that takes the channel at device offset o:
      `(16 - o) / 8` in C's int arithmetic, so that the channel at offset 16
      comes first (Byte24Formula). */
  function Byte24(o: Shift): int
  {
    if o == 0 then 2 else if o <= 8 then 1 else if o <= 23 then 0 else -1
  }

  /** c with byte i replaced by b. */
  function SetByte(c: seq<bv8>, i: int, b: bv8): (r: seq<bv8>)
    ensures |r| == |c|
  {
    if 0 <= i < |c| then c[i := b] else c
  }

  /** A 3-byte device pixel: red, then green, then blue, each written to its
      own byte of the old cell c (obrender/color.c:159-170). */
  function Reduce24(l: Layout, v: Visual, p: bv32, c: seq<bv8>): (r: seq<bv8>)
    ensures |r| == |c|
  {
    var withRed := SetByte(c, Byte24(v.redOffset), Low8(Chan(p, l.red)));
    var withGreen := SetByte(withRed, Byte24(v.greenOffset), Low8(Chan(p, l.green)));
    SetByte(withGreen, Byte24(v.blueOffset), Low8(Chan(p, l.blue)))
  }

  lemma Byte24Formula(o: Shift)
    ensures Byte24(o) == CDiv(16 - o as int, 8)
  {
  }

  /** Each channel lands in byte (16 - o) / 8 of its offset o, and a byte
      that no channel names keeps its old value; for the visual with red at
      16, green at 8 and blue at 0 that puts red first (Reduce24Order). */
  lemma Reduce24Bytes(l: Layout, v: Visual, p: bv32, c: seq<bv8>)
    requires |c| == 3
    requires 0 <= Byte24(v.redOffset) && 0 <= Byte24(v.greenOffset) && 0 <= Byte24(v.blueOffset)
    requires Byte24(v.redOffset) != Byte24(v.greenOffset) && Byte24(v.redOffset) != Byte24(v.blueOffset)
    requires Byte24(v.greenOffset) != Byte24(v.blueOffset)
    ensures Reduce24(l, v, p, c)[Byte24(v.redOffset)] == Low8(Chan(p, l.red))
    ensures Reduce24(l, v, p, c)[Byte24(v.greenOffset)] == Low8(Chan(p, l.green))
    ensures Reduce24(l, v, p, c)[Byte24(v.blueOffset)] == Low8(Chan(p, l.blue))
  {
  }

  lemma Reduce24Order(l: Layout, v: Visual, p: bv32, c: seq<bv8>)
    requires |c| == 3 && v.redOffset == 16 && v.greenOffset == 8 && v.blueOffset == 0
    ensures Reduce24(l, v, p, c) == [Low8(Chan(p, l.red)), Low8(Chan(p, l.green)), Low8(Chan(p, l.blue))]
  {
    Reduce24Bytes(l, v, p, c);
  }

  /** When two channels name the same byte, the later write wins: blue over
      green over red. */
  lemma Reduce24Overlap(l: Layout, v: Visual, p: bv32, c: seq<bv8>)
    requires |c| == 3 && 0 <= Byte24(v.redOffset) && Byte24(v.redOffset) == Byte24(v.blueOffset)
    ensures Reduce24(l, v, p, c)[Byte24(v.redOffset)] == Low8(Chan(p, l.blue))
  {
  }

  // ---------------------------------------------------------------------
  // RrPickColor.

  function Pow2(n: nat): (r: nat)
    ensures r >= 1
  {
    if n == 0 then 1 else 2 * Pow2(n - 1)
  }

  lemma {:induction false} Pow2Add(a: nat, b: nat)
    ensures Pow2(a + b) == Pow2(a) * Pow2(b)
    decreases a
  {
    if a > 0 {
      Pow2Add(a - 1, b);
    }
  }

  /** The top `bits` bits of the low byte of c: `(c & 0xff) >> (8 - bits)`. */
  function Top(bits: CubeBits, c: int): (t: nat)
    ensures t < Pow2(bits)
  {
    Pow2Add(8 - bits, bits);
    assert Pow2(8 - bits) * Pow2(bits) == 256;
    (c % 256) / Pow2(8 - bits)
  }

  /** The number of slots in the color cube, 2^(3 bits). */
  function Slots(bits: CubeBits): nat
  {
    Pow2(bits) * Pow2(bits) * Pow2(bits)
  }

  /** The palette slot of a color, `(r << 2 bits) + (g << bits) + b` on the
      shortened channels (obrender/color.c:228-233), written as the number
      with digits r, g, b in base 2^bits. It always lies inside the cube. */
  function PickIndex(bits: CubeBits, r: int, g: int, b: int): (i: nat)
    ensures i < Slots(bits)
  {
    var n, tr, tg, tb := Pow2(bits), Top(bits, r), Top(bits, g), Top(bits, b);
    DigitBound(n, n, tr, tg);
    DigitBound(n, n * n, tr * n + tg, tb);
    Number(n, tr, tg, tb)
  }

  /** The number with digits x, y, z in base n. */
  function Number(n: nat, x: nat, y: nat, z: nat): nat
  {
    (x * n + y) * n + z
  }

  /** Appending a digit below n to a number below m gives one below m * n. */
  lemma DigitBound(n: nat, m: nat, a: nat, b: nat)
    requires a < m && b < n
    ensures 0 <= a * n + b < m * n
  {
    MulLe(a, m - 1, n);
    assert (m - 1) * n == m * n - n;
  }

  lemma MulLe(a: int, b: int, c: nat)
    requires a <= b
    ensures a * c <= b * c
  {
    assert b * c - a * c == (b - a) * c;
  }

  /** RrPickColor: the palette entry of the color's slot. */
  function PickColor(v: Visual, r: int, g: int, b: int): (c: nat)
    requires |v.palette| >= Slots(v.cubeBits)
    ensures c in v.palette
  {
    v.palette[PickIndex(v.cubeBits, r, g, b)]
  }

  /** The slot determines the shortened channels: they are its three digits
      in base 2^bits. */
  lemma PickIndexDigits(bits: CubeBits, r: int, g: int, b: int)
    ensures var n := Pow2(bits); PickIndex(bits, r, g, b) / n / n == Top(bits, r)
    ensures var n := Pow2(bits); PickIndex(bits, r, g, b) / n % n == Top(bits, g)
    ensures var n := Pow2(bits); PickIndex(bits, r, g, b) % n == Top(bits, b)
  {
    Digits(Pow2(bits), Top(bits, r), Top(bits, g), Top(bits, b));
  }

  /** The three digits of a number written in base n. */
  lemma Digits(n: nat, x: nat, y: nat, z: nat)
    requires x < n && y < n && z < n
    ensures Number(n, x, y, z) / n / n == x
    ensures Number(n, x, y, z) / n % n == y
    ensures Number(n, x, y, z) % n == z
  {
    DigitBound(n, n, x, y);
    DivModUnique((x * n + y) * n + z, n, x * n + y, z);
    DivModUnique(x * n + y, n, x, y);
  }

  /** Two colors share a slot exactly when their shortened channels agree. */
  lemma PickIndexSame(bits: CubeBits, r1: int, g1: int, b1: int, r2: int, g2: int, b2: int)
    ensures PickIndex(bits, r1, g1, b1) == PickIndex(bits, r2, g2, b2)
        <==> Top(bits, r1) == Top(bits, r2) && Top(bits, g1) == Top(bits, g2) && Top(bits, b1) == Top(bits, b2)
  {
    PickIndexDigits(bits, r1, g1, b1);
    PickIndexDigits(bits, r2, g2, b2);
  }

  /** With two bits per channel, (200, 10, 250) keeps (3, 0, 3) and picks
      slot 3 * 16 + 0 * 4 + 3 = 51. */
  lemma PickExample()
    ensures PickIndex(2, 200, 10, 250) == 51
  {
    assert Pow2(2) == 4;
    assert Top(2, 200) == 3 && Top(2, 10) == 0 && Top(2, 250) == 3;
  }

  /** An 8-bit indexed device pixel: the palette pixel picked for the color,
      kept to its low byte by the store. The channels are passed shifted into
      the low bits but unmasked, as at obrender/color.c:210-213. */
  function PickPixel(l: Layout, v: Visual, p: bv32): bv8
  {
    PickByte(v, p >> l.red, p >> l.green, p >> l.blue)
  }

  /** The low byte of RrPickColor's pixel for channels r, g, b. */
  function PickByte(v: Visual, r: bv32, g: bv32, b: bv32): bv8
  {
    if |v.palette| >= Slots(v.cubeBits) then (PickColor(v, r as int, g as int, b as int) % 256) as bv8 else 0
  }

  /** An indexed pixel is the low byte of a palette entry. */
  lemma PickByteEntry(v: Visual, r: bv32, g: bv32, b: bv32)
    requires |v.palette| >= Slots(v.cubeBits)
    ensures exists c :: c in v.palette && PickByte(v, r, g, b) == (c % 256) as bv8
  {
    var c := PickColor(v, r as int, g as int, b as int);
    assert c in v.palette;
  }

  /** Two colors whose shortened channels agree get the same indexed pixel.
      Top's `% 256` is RrPickColor's `& 0xff` on the unmasked channel. */
  lemma PickByteSame(v: Visual, r1: bv32, g1: bv32, b1: bv32, r2: bv32, g2: bv32, b2: bv32)
    requires Top(v.cubeBits, r1 as int) == Top(v.cubeBits, r2 as int)
    requires Top(v.cubeBits, g1 as int) == Top(v.cubeBits, g2 as int)
    requires Top(v.cubeBits, b1 as int) == Top(v.cubeBits, b2 as int)
    ensures PickByte(v, r1, g1, b1) == PickByte(v, r2, g2, b2)
  {
    PickIndexSame(v.cubeBits, r1 as int, g1 as int, b1 as int, r2 as int, g2 as int, b2 as int);
  }

  // ---------------------------------------------------------------------
  // RrIncreaseDepth, one pixel.

  /** A canonical pixel from a 32-bit device pixel: the device channels moved
      to the canonical offsets and the alpha byte set to 0xff
      (obrender/color.c:288-294). */
  function Increase32(l: Layout, v: Visual, q: bv32): bv32
  {
    Pack4(Chan(q, v.redOffset), Chan(q, v.greenOffset), Chan(q, v.blueOffset), 0xFF, l.red, l.green, l.blue, l.alpha)
  }

  /** A 16-bit channel: masked, moved down by its offset, then up by the bits
      the device drops (obrender/color.c:303-311). */
  function Field16(q: bv16, mask: bv32, off: Shift, shift: Shift): bv32
  {
    ((q as bv32) & mask) >> off << shift
  }

  function Increase16(l: Layout, v: Visual, q: bv16): bv32
  {
    Pack4(Field16(q, v.redMask, v.redOffset, v.redShift), Field16(q, v.greenMask, v.greenOffset, v.greenShift),
          Field16(q, v.blueMask, v.blueOffset, v.blueShift), 0xFF, l.red, l.green, l.blue, l.alpha)
  }

  /** A 1-bit pixel: opaque black when the bit is clear, 0xffffffff (opaque
      white) when it is set (obrender/color.c:327-330). */
  function Increase1(l: Layout, bit: bool): bv32
  {
    if !bit then 0xFF << l.alpha else 0xFFFFFFFF
  }

  /** The channels of a 32-bit reduction sit at the device offsets. */
  lemma Reduce32Channels(l: Layout, v: Visual, p: bv32)
    requires ByteChannels(v)
    ensures Chan(Reduce32(l, v, p), v.redOffset) == Chan(p, l.red)
    ensures Chan(Reduce32(l, v, p), v.greenOffset) == Chan(p, l.green)
    ensures Chan(Reduce32(l, v, p), v.blueOffset) == Chan(p, l.blue)
  {
    Unpack3All(Chan(p, l.red), Chan(p, l.green), Chan(p, l.blue), v.redOffset, v.greenOffset, v.blueOffset);
  }

  /** A 32-bit increase reads each channel at its device offset and is
      always opaque. */
  lemma Increase32Channels(l: Layout, v: Visual, q: bv32)
    requires Canonical(l)
    ensures Chan(Increase32(l, v, q), l.red) == Chan(q, v.redOffset)
    ensures Chan(Increase32(l, v, q), l.green) == Chan(q, v.greenOffset)
    ensures Chan(Increase32(l, v, q), l.blue) == Chan(q, v.blueOffset)
    ensures Chan(Increase32(l, v, q), l.alpha) == 0xFF
  {
    Unpack4All(Chan(q, v.redOffset), Chan(q, v.greenOffset), Chan(q, v.blueOffset), 0xFF, l.red, l.green, l.blue, l.alpha);
  }

  /** Reducing to a 32-bit visual and increasing back gives every color
      channel back exactly, with alpha made opaque. */
  lemma RoundTrip32(l: Layout, v: Visual, p: bv32)
    requires Canonical(l) && ByteChannels(v)
    ensures Chan(Increase32(l, v, Reduce32(l, v, p)), l.red) == Chan(p, l.red)
    ensures Chan(Increase32(l, v, Reduce32(l, v, p)), l.green) == Chan(p, l.green)
    ensures Chan(Increase32(l, v, Reduce32(l, v, p)), l.blue) == Chan(p, l.blue)
    ensures Chan(Increase32(l, v, Reduce32(l, v, p)), l.alpha) == 0xFF
  {
    Reduce32Channels(l, v, p);
    Increase32Channels(l, v, Reduce32(l, v, p));
  }

  /** When the device offsets are the canonical ones, increasing a canonical
      pixel keeps its colors and makes it opaque: the shared buffer of the
      32-bit fast path reads back as the original. */
  lemma IncreaseSameOffsets(l: Layout, v: Visual, p: bv32)
    requires Canonical(l) && SameOffsets(l, v)
    ensures Chan(Increase32(l, v, p), l.red) == Chan(p, l.red)
    ensures Chan(Increase32(l, v, p), l.green) == Chan(p, l.green)
    ensures Chan(Increase32(l, v, p), l.blue) == Chan(p, l.blue)
    ensures Chan(Increase32(l, v, p), l.alpha) == 0xFF
  {
    Increase32Channels(l, v, p);
  }

  /** A 16-bit increase puts each channel field at its canonical offset, as
      long as each field fits a byte, and is always opaque. */
  lemma Increase16Channels(l: Layout, v: Visual, q: bv16)
    requires Canonical(l)
    requires Field16(q, v.redMask, v.redOffset, v.redShift) < 256
    requires Field16(q, v.greenMask, v.greenOffset, v.greenShift) < 256
    requires Field16(q, v.blueMask, v.blueOffset, v.blueShift) < 256
    ensures Chan(Increase16(l, v, q), l.red) == Field16(q, v.redMask, v.redOffset, v.redShift)
    ensures Chan(Increase16(l, v, q), l.green) == Field16(q, v.greenMask, v.greenOffset, v.greenShift)
    ensures Chan(Increase16(l, v, q), l.blue) == Field16(q, v.blueMask, v.blueOffset, v.blueShift)
    ensures Chan(Increase16(l, v, q), l.alpha) == 0xFF
  {
    var r := Field16(q, v.redMask, v.redOffset, v.redShift);
    var g := Field16(q, v.greenMask, v.greenOffset, v.greenShift);
    var b := Field16(q, v.blueMask, v.blueOffset, v.blueShift);
    Unpack4All(r, g, b, 0xFF, l.red, l.green, l.blue, l.alpha);
  }

  /** The common 5-6-5 visual: red in bits 11-15, green in 5-10, blue in 0-4. */
  function Visual565(trueColor: bool, cubeBits: CubeBits, palette: seq<nat>): Visual
  {
    Visual(11, 5, 0, 3, 2, 3, 0xF800, 0x07E0, 0x001F, trueColor, cubeBits, palette)
  }

  /** The 15-bit 5-5-5 visual: red in bits 10-14, green in 5-9, blue in 0-4. */
  function Visual555(trueColor: bool, cubeBits: CubeBits, palette: seq<nat>): Visual
  {
    Visual(10, 5, 0, 3, 3, 3, 0x7C00, 0x03E0, 0x001F, trueColor, cubeBits, palette)
  }

  // Each field of a 5-6-5 or 5-5-5 pixel, read back, is its channel with the
  // bits the device drops cleared; one lemma per field keeps each proof small.
  lemma Field565Red(r: bv32, g: bv32, b: bv32, tc: bool, cb: CubeBits, pal: seq<nat>)
    requires r < 256 && g < 256 && b < 256
    ensures Field16(Low16(Scale3(r, g, b, Visual565(tc, cb, pal))), 0xF800, 11, 3) == r & 0xF8
  {
  }

  lemma Field565Green(r: bv32, g: bv32, b: bv32, tc: bool, cb: CubeBits, pal: seq<nat>)
    requires r < 256 && g < 256 && b < 256
    ensures Field16(Low16(Scale3(r, g, b, Visual565(tc, cb, pal))), 0x07E0, 5, 2) == g & 0xFC
  {
  }

  lemma Field565Blue(r: bv32, g: bv32, b: bv32, tc: bool, cb: CubeBits, pal: seq<nat>)
    requires r < 256 && g < 256 && b < 256
    ensures Field16(Low16(Scale3(r, g, b, Visual565(tc, cb, pal))), 0x001F, 0, 3) == b & 0xF8
  {
  }

  lemma Field555Red(r: bv32, g: bv32, b: bv32, tc: bool, cb: CubeBits, pal: seq<nat>)
    requires r < 256 && g < 256 && b < 256
    ensures Field16(Low16(Scale3(r, g, b, Visual555(tc, cb, pal))), 0x7C00, 10, 3) == r & 0xF8
  {
  }

  lemma Field555Green(r: bv32, g: bv32, b: bv32, tc: bool, cb: CubeBits, pal: seq<nat>)
    requires r < 256 && g < 256 && b < 256
    ensures Field16(Low16(Scale3(r, g, b, Visual555(tc, cb, pal))), 0x03E0, 5, 3) == g & 0xF8
  {
  }

  lemma Field555Blue(r: bv32, g: bv32, b: bv32, tc: bool, cb: CubeBits, pal: seq<nat>)
    requires r < 256 && g < 256 && b < 256
    ensures Field16(Low16(Scale3(r, g, b, Visual555(tc, cb, pal))), 0x001F, 0, 3) == b & 0xF8
  {
  }

  /** A 16-bit reduction to a 5-6-5 visual keeps the top 5, 6 and 5 bits of
      red, green and blue in the device fields. */
  lemma Reduce565(l: Layout, p: bv32, tc: bool, cb: CubeBits, pal: seq<nat>)
    ensures var v := Visual565(tc, cb, pal);
      Field16(Reduce16(l, v, p), v.redMask, v.redOffset, v.redShift) == Chan(p, l.red) & 0xF8
    ensures var v := Visual565(tc, cb, pal);
      Field16(Reduce16(l, v, p), v.greenMask, v.greenOffset, v.greenShift) == Chan(p, l.green) & 0xFC
    ensures var v := Visual565(tc, cb, pal);
      Field16(Reduce16(l, v, p), v.blueMask, v.blueOffset, v.blueShift) == Chan(p, l.blue) & 0xF8
  {
    Reduce565Red(l, p, tc, cb, pal);
    Reduce565Green(l, p, tc, cb, pal);
    Reduce565Blue(l, p, tc, cb, pal);
  }

  lemma Reduce565Red(l: Layout, p: bv32, tc: bool, cb: CubeBits, pal: seq<nat>)
    ensures Field16(Reduce16(l, Visual565(tc, cb, pal), p), 0xF800, 11, 3) == Chan(p, l.red) & 0xF8
  {
    Field565Red(Chan(p, l.red), Chan(p, l.green), Chan(p, l.blue), tc, cb, pal);
  }

  lemma Reduce565Green(l: Layout, p: bv32, tc: bool, cb: CubeBits, pal: seq<nat>)
    ensures Field16(Reduce16(l, Visual565(tc, cb, pal), p), 0x07E0, 5, 2) == Chan(p, l.green) & 0xFC
  {
    Field565Green(Chan(p, l.red), Chan(p, l.green), Chan(p, l.blue), tc, cb, pal);
  }

  lemma Reduce565Blue(l: Layout, p: bv32, tc: bool, cb: CubeBits, pal: seq<nat>)
    ensures Field16(Reduce16(l, Visual565(tc, cb, pal), p), 0x001F, 0, 3) == Chan(p, l.blue) & 0xF8
  {
    Field565Blue(Chan(p, l.red), Chan(p, l.green), Chan(p, l.blue), tc, cb, pal);
  }

  /** A 16-bit reduction to a 5-5-5 visual keeps the top 5 bits of
      red, green and blue in the device fields. */
  lemma Reduce555(l: Layout, p: bv32, tc: bool, cb: CubeBits, pal: seq<nat>)
    ensures var v := Visual555(tc, cb, pal);
      Field16(Reduce16(l, v, p), v.redMask, v.redOffset, v.redShift) == Chan(p, l.red) & 0xF8
    ensures var v := Visual555(tc, cb, pal);
      Field16(Reduce16(l, v, p), v.greenMask, v.greenOffset, v.greenShift) == Chan(p, l.green) & 0xF8
    ensures var v := Visual555(tc, cb, pal);
      Field16(Reduce16(l, v, p), v.blueMask, v.blueOffset, v.blueShift) == Chan(p, l.blue) & 0xF8
  {
    Reduce555Red(l, p, tc, cb, pal);
    Reduce555Green(l, p, tc, cb, pal);
    Reduce555Blue(l, p, tc, cb, pal);
  }

  lemma Reduce555Red(l: Layout, p: bv32, tc: bool, cb: CubeBits, pal: seq<nat>)
    ensures Field16(Reduce16(l, Visual555(tc, cb, pal), p), 0x7C00, 10, 3) == Chan(p, l.red) & 0xF8
  {
    Field555Red(Chan(p, l.red), Chan(p, l.green), Chan(p, l.blue), tc, cb, pal);
  }

  lemma Reduce555Green(l: Layout, p: bv32, tc: bool, cb: CubeBits, pal: seq<nat>)
    ensures Field16(Reduce16(l, Visual555(tc, cb, pal), p), 0x03E0, 5, 3) == Chan(p, l.green) & 0xF8
  {
    Field555Green(Chan(p, l.red), Chan(p, l.green), Chan(p, l.blue), tc, cb, pal);
  }

  lemma Reduce555Blue(l: Layout, p: bv32, tc: bool, cb: CubeBits, pal: seq<nat>)
    ensures Field16(Reduce16(l, Visual555(tc, cb, pal), p), 0x001F, 0, 3) == Chan(p, l.blue) & 0xF8
  {
    Field555Blue(Chan(p, l.red), Chan(p, l.green), Chan(p, l.blue), tc, cb, pal);
  }

  /** Reducing to a 5-6-5 visual and increasing back keeps the top
      5, 6 and 5 bits of red, green and blue, and makes the pixel opaque. */
  lemma RoundTrip565(l: Layout, p: bv32, tc: bool, cb: CubeBits, pal: seq<nat>)
    requires Canonical(l)
    ensures var v := Visual565(tc, cb, pal);
      Chan(Increase16(l, v, Reduce16(l, v, p)), l.red) == Chan(p, l.red) & 0xF8
    ensures var v := Visual565(tc, cb, pal);
      Chan(Increase16(l, v, Reduce16(l, v, p)), l.green) == Chan(p, l.green) & 0xFC
    ensures var v := Visual565(tc, cb, pal);
      Chan(Increase16(l, v, Reduce16(l, v, p)), l.blue) == Chan(p, l.blue) & 0xF8
    ensures var v := Visual565(tc, cb, pal);
      Chan(Increase16(l, v, Reduce16(l, v, p)), l.alpha) == 0xFF
  {
    var v := Visual565(tc, cb, pal);
    Reduce565(l, p, tc, cb, pal);
    IncreaseFields(l, v, Reduce16(l, v, p), Chan(p, l.red) & 0xF8, Chan(p, l.green) & 0xFC, Chan(p, l.blue) & 0xF8);
  }

  /** Reducing to a 5-5-5 visual and increasing back keeps the top
      5 bits of red, green and blue, and makes the pixel opaque. */
  lemma RoundTrip555(l: Layout, p: bv32, tc: bool, cb: CubeBits, pal: seq<nat>)
    requires Canonical(l)
    ensures var v := Visual555(tc, cb, pal);
      Chan(Increase16(l, v, Reduce16(l, v, p)), l.red) == Chan(p, l.red) & 0xF8
    ensures var v := Visual555(tc, cb, pal);
      Chan(Increase16(l, v, Reduce16(l, v, p)), l.green) == Chan(p, l.green) & 0xF8
    ensures var v := Visual555(tc, cb, pal);
      Chan(Increase16(l, v, Reduce16(l, v, p)), l.blue) == Chan(p, l.blue) & 0xF8
    ensures var v := Visual555(tc, cb, pal);
      Chan(Increase16(l, v, Reduce16(l, v, p)), l.alpha) == 0xFF
  {
    var v := Visual555(tc, cb, pal);
    Reduce555(l, p, tc, cb, pal);
    IncreaseFields(l, v, Reduce16(l, v, p), Chan(p, l.red) & 0xF8, Chan(p, l.green) & 0xF8, Chan(p, l.blue) & 0xF8);
  }

  /** The 8-bit TrueColor 3-3-2 visual: red in bits 5-7, green in 2-4, blue
      in 0-1. */
  function Visual332(trueColor: bool, cubeBits: CubeBits, palette: seq<nat>): Visual
  {
    Visual(5, 2, 0, 5, 5, 6, 0xE0, 0x1C, 0x03, trueColor, cubeBits, palette)
  }

  /** An 8-bit TrueColor pixel on a 3-3-2 visual, made from channels r, g
      and b as Reduce8 makes it from a canonical pixel's channels, keeps the
      top 3, 3 and 2 bits of red, green and blue, each in its own field. */
  lemma Field332(r: bv32, g: bv32, b: bv32, tc: bool, cb: CubeBits, pal: seq<nat>)
    requires r < 256 && g < 256 && b < 256
    ensures ((Low8(Scale3(r, g, b, Visual332(tc, cb, pal))) as bv32) & 0xE0) >> 5 == r >> 5
    ensures ((Low8(Scale3(r, g, b, Visual332(tc, cb, pal))) as bv32) & 0x1C) >> 2 == g >> 5
    ensures (Low8(Scale3(r, g, b, Visual332(tc, cb, pal))) as bv32) & 0x03 == b >> 6
  {
  }

  /** Increase16Channels with the field values named. */
  lemma IncreaseFields(l: Layout, v: Visual, q: bv16, r: bv32, g: bv32, b: bv32)
    requires Canonical(l) && r < 256 && g < 256 && b < 256
    requires Field16(q, v.redMask, v.redOffset, v.redShift) == r
    requires Field16(q, v.greenMask, v.greenOffset, v.greenShift) == g
    requires Field16(q, v.blueMask, v.blueOffset, v.blueShift) == b
    ensures Chan(Increase16(l, v, q), l.red) == r
    ensures Chan(Increase16(l, v, q), l.green) == g
    ensures Chan(Increase16(l, v, q), l.blue) == b
    ensures Chan(Increase16(l, v, q), l.alpha) == 0xFF
  {
    Increase16Channels(l, v, q);
  }

  /** Clear bits read as opaque black, set bits as opaque white. */
  lemma Increase1Colors(l: Layout, bit: bool)
    requires Canonical(l)
    ensures Chan(Increase1(l, bit), l.alpha) == 0xFF
    ensures Chan(Increase1(l, bit), l.red) == (if bit then 0xFF else 0)
    ensures Chan(Increase1(l, bit), l.green) == (if bit then 0xFF else 0)
    ensures Chan(Increase1(l, bit), l.blue) == (if bit then 0xFF else 0)
  {
    if !bit {
      ChanAtSelf(0xFF, l.alpha);
      ChanAtOther(0xFF, l.alpha, l.red);
      ChanAtOther(0xFF, l.alpha, l.green);
      ChanAtOther(0xFF, l.alpha, l.blue);
    }
  }

  // ---------------------------------------------------------------------
  // swap_byte_order, one pixel.

  /** The 32-bit case as written: bytes 2 and 3 swapped, then, falling
      through to the 16-bit case, bytes 0 and 1 (obrender/color.c:247-255). */
  function SwapPairs(c: seq<bv8>): (r: seq<bv8>)
    requires |c| == 4
    ensures |r| == 4 && Load32(r, 0) == HalvesExchanged(Load32BigEndian(c, 0))
  {
    [c[1], c[0], c[3], c[2]]
  }

  /** The word with its two 16-bit halves exchanged. */
  function HalvesExchanged(w: bv32): bv32
  {
    (w >> 16) | (w << 16)
  }

  /** The 16-bit case: bytes 0 and 1 swapped. */
  function Swap16(c: seq<bv8>): (r: seq<bv8>)
    requires |c| == 2
    ensures |r| == 2 && Load16(r, 0) == ((Load16(c, 0) & 0xFF) << 8) | (Load16(c, 0) >> 8)
  {
    [c[1], c[0]]
  }

  /** A 32-bit word stored most significant byte first, as an MSBFirst
      image holds it, reversed into this host's order. */
  function Reverse32(c: seq<bv8>): (r: seq<bv8>)
    requires |c| == 4
    ensures |r| == 4 && Load32(r, 0) == Load32BigEndian(c, 0)
  {
    [c[3], c[2], c[1], c[0]]
  }

  /** The 32-bit case as written does not turn an MSBFirst word into the
      host's word: 0x11223344 stored as 11 22 33 44 comes out as 0x33441122. */
  lemma SwapPairsMisreads()
    ensures Load32BigEndian([0x11, 0x22, 0x33, 0x44], 0) == 0x11223344
    ensures Load32(SwapPairs([0x11, 0x22, 0x33, 0x44]), 0) == 0x33441122
  {
  }
}
