# The Openbox color layer, modelled in Dafny

This project models two parts of Openbox and proves properties of them.

**The color layer of the renderer (`obrender/color.c`).**

- *The color cache.* Each render instance keeps a table of `RrColor`s keyed by `(r << 24) + (g << 16) + (b << 8)`.
  - `RrColorNew` returns the cached color with one more reference, or asks the X server to allocate one and stores it.
  - `RrColorParse` and `RrColorCopy` go through `RrColorNew`.
  - `RrColorFree` drops a reference. The last one removes the entry and frees its pixel and drawing context.
  - `RrColorGC` creates the drawing context once, on first use.
  - The model has two layers:
    - `ColorModel` is the cache as values (`Cache`, `Entry`), with one function per operation.
    - `ColorCache.Instance` is the table as a class that the methods update in place. Each method is proved equal to its `ColorModel` function.
  - The X server is an oracle (`ColorModel.Device`). The cache counts the calls made to it, so allocations and frees can be paired.
- *The depth conversions.*
  - `RrReduceDepth` writes canonical 32-bit ARGB pixels into an `XImage` of depth 32, 24, 16 or 8, where 8 is TrueColor or a palette picked by `RrPickColor`.
  - `RrIncreaseDepth` reads an image of depth 32, 16 or 1 back into canonical pixels. It first runs `swap_byte_order` when the image is not LSBFirst.
  - Buffers are `array<bv8>`, and 32- and 16-bit pixels are little-endian words (`Bytes`).
  - Each loop nest is one instance of `Raster.Run`. That method is proved to leave the buffer equal to `Raster.Convert`, the closed form of "every cell of the grid rewritten by its cell map".
  - `Pixels` holds the per-pixel arithmetic and its lemmas. `Depth` holds the three operations and what their output holds pixel by pixel.
  - The canonical offsets (`RrDefault*Offset`) are a parameter `Layout`. Its usual assumption is `Canonical`: four distinct whole bytes.

**The options of the Tile and Untile actions (`openbox/actions/tile.c`).** `setup_func` turns the text of an optional `direction` node into a direction. The eight names and their abbreviations match in any ASCII case, and the default is NorthWest (`Tile`).

## Model

| member | source | states |
|---|---|---|
| ColorModel.Key | obrender/color.c:74 | each of r, g and b can be read back from the key, so distinct colors get distinct keys |
| ColorModel.KeyInjective | obrender/color.c:70-74 | two colors in range share a key exactly when their channels are equal |
| ColorModel.Request | obrender/color.c:79-81 | the 16-bit request for a channel c holds c in both bytes, so its high byte is c again |
| ColorModel.New | obrender/color.c:63-102 | a returned color is stored under the key of the request; NULL leaves the table alone; the device is asked only on a miss; nothing is freed; every other entry is unchanged |
| ColorModel.NewHit | obrender/color.c:76-77 | a hit returns the stored color with its reference count one higher and makes no allocation |
| ColorModel.NewMiss | obrender/color.c:78-97 | a satisfied miss stores a new entry under the key, with one reference and no drawing context, after exactly one allocation |
| ColorModel.NewChannels | obrender/color.c:342-360 | the accessors of a newly allocated color give the high bytes of the channels the device returned (lines 86-88) and its pixel |
| ColorModel.NewFails | obrender/color.c:82-101 | a failed allocation returns NULL, leaves the table unchanged and counts one allocation call |
| ColorModel.FreeUndoesHit | obrender/color.c:109-123 | freeing the reference a hit took gives back the cache exactly |
| ColorModel.Parse | obrender/color.c:40-56 | an unknown name gives NULL with nothing allocated; a returned color has the key of the high bytes of the parsed channels |
| ColorModel.Copy | obrender/color.c:104-107 | a copy has the key of the channels the original holds |
| ColorModel.CopyExact | obrender/color.c:104-107 | copying a color whose channels are the ones it was asked for takes another reference to the same entry, with no allocation |
| ColorModel.Free | obrender/color.c:109-123 | NULL is ignored; above one reference only the count drops; the last reference removes the entry, frees the pixel only when it is not zero, and frees the drawing context only when its handle is not zero, 0 meaning none (line 119) |
| ColorModel.Interning | obrender/color.c:63-123 | n requests for an uncached color followed by n frees make exactly one allocation and one pixel free (when the pixel is not zero), and leave the table as it was |
| ColorModel.NewTimesStored | obrender/color.c:76-97 | after n requests the color is stored once, with n references, after one allocation |
| ColorModel.FreeTimesDrops | obrender/color.c:110-111 | frees short of the last one only lower the reference count |
| ColorModel.NewValid | obrender/color.c:63-102 | RrColorNew keeps every entry under its own key with at least one reference |
| ColorModel.FreeValid | obrender/color.c:109-123 | RrColorFree keeps that invariant |
| ColorModel.GCValid | obrender/color.c:362-367 | RrColorGC keeps that invariant |
| ColorModel.AllocateGC | obrender/color.c:29-38 | the entry gets the handle of a new drawing context whose foreground is its pixel; nothing else in the table changes |
| ColorModel.GC | obrender/color.c:362-367 | a handle of 0 means none: while the entry's handle is 0 a new drawing context is created and stored, also after an XCreateGC that returned 0 (line 364); a non-zero handle is returned with nothing created or changed |
| ColorModel.GCTwice | obrender/color.c:362-367 | once RrColorGC has returned a non-zero handle, a second call changes nothing and returns it again; after a handle of 0, the second call asks the device for another drawing context |
| ColorCache.Instance.New | obrender/color.c:63-102 | the in-place table update and result are those of ColorModel.New, and the invariant is kept |
| ColorCache.Instance.Parse | obrender/color.c:40-56 | as ColorModel.Parse |
| ColorCache.Instance.Copy | obrender/color.c:104-107 | as ColorModel.Copy |
| ColorCache.Instance.Free | obrender/color.c:109-123 | as ColorModel.Free |
| ColorCache.Instance.AllocateGC | obrender/color.c:29-38 | as ColorModel.AllocateGC |
| ColorCache.Instance.GC | obrender/color.c:362-367 | as ColorModel.GC |
| Raster.Run | obrender/color.c:143-152 | the row-by-row, cell-by-cell loop nest leaves the buffer equal to Raster.Convert: each cell rewritten by the cell map, every other byte unchanged |
| Raster.Write | obrender/color.c:148 | a pixel store replaces exactly the bytes of its cell |
| Raster.ConvertAt | obrender/color.c:143-152 | after the loops each cell holds the cell map applied to its old contents |
| Raster.ConvertTwice | obrender/color.c:241-265 | a loop nest whose cell map undoes itself, run twice, gives back the buffer |
| Pixels.Chan | obrender/color.c:145-147 | a channel taken with `>> off & 0xff` is a byte |
| Pixels.Reduce32Channels | obrender/color.c:145-148 | a 32-bit pixel made by `Pixels.Reduce32` holds each canonical channel at its device offset |
| Pixels.Byte24Formula | obrender/color.c:159-161 | the byte `Pixels.Byte24` sends a channel at offset o to in a 24-bit pixel is `(16 - o) / 8` with C's truncating division |
| Pixels.Reduce24Bytes | obrender/color.c:165-170 | in the 3-byte pixel `Pixels.Reduce24` writes, each channel lands in the byte its offset names |
| Pixels.Reduce24Order | obrender/color.c:157-158 | with red at 16, green at 8 and blue at 0 the three bytes are red, green, blue |
| Pixels.Reduce24Overlap | obrender/color.c:168-170 | when red and blue name the same byte, blue, written last, wins |
| Pixels.Reduce565 | obrender/color.c:180-186 | on a 5-6-5 visual each field of the 16-bit pixel `Pixels.Reduce16` packs, read back by `Pixels.Field16`, is its channel with the low 3, 2 and 3 bits cleared |
| Pixels.Reduce555 | obrender/color.c:180-186 | on a 5-5-5 visual each field of that pixel is its channel with the low 3 bits cleared |
| Pixels.RoundTrip565 | obrender/color.c:300-315 | on a 5-6-5 visual, `Pixels.Reduce16` then `Pixels.Increase16` keep the top 5, 6 and 5 bits of each channel and make the pixel opaque |
| Pixels.RoundTrip555 | obrender/color.c:300-315 | on a 5-5-5 visual the same round trip keeps the top 5 bits of each channel and makes the pixel opaque |
| Pixels.Field332 | obrender/color.c:196-202 | on a 3-3-2 TrueColor visual the 8-bit pixel `Pixels.Reduce8` packs holds the top 3 bits of red and of green and the top 2 bits of blue, each in its own field |
| Pixels.Top | obrender/color.c:228-230 | a shortened channel is below 2^bits |
| Pixels.PickIndex | obrender/color.c:231-233 | the palette slot lies inside the cube of 2^(3 bits) slots |
| Pixels.PickColor | obrender/color.c:226-234 | the color picked is an entry of the palette |
| Pixels.PickIndexDigits | obrender/color.c:231-233 | the slot's base-2^bits digits are the shortened red, green and blue |
| Pixels.PickIndexSame | obrender/color.c:228-233 | two colors share a slot exactly when their shortened channels agree |
| Pixels.PickExample | obrender/color.c:228-233 | with two bits per channel, (200, 10, 250) picks slot 51 |
| Pixels.PickByteEntry | obrender/color.c:210-213 | the indexed pixel `Pixels.PickByte` stores is the low byte of an entry of the palette (`Pixels.PickPixel`) |
| Pixels.PickByteSame | obrender/color.c:210-213 | two colors whose channels, cut to a byte and shortened as RrPickColor does, agree get the same indexed pixel |
| Pixels.Increase32Channels | obrender/color.c:288-294 | `Pixels.Increase32` reads each channel at its device offset and sets alpha to 0xff |
| Pixels.Increase16Channels | obrender/color.c:303-315 | `Pixels.Increase16` puts each field, masked and moved by `Pixels.Field16`, at its canonical offset when it fits a byte, and sets alpha to 0xff |
| Pixels.Increase1Colors | obrender/color.c:327-330 | in `Pixels.Increase1` a clear bit reads as opaque black, a set bit as opaque white |
| Pixels.RoundTrip32 | obrender/color.c:286-294 | a 32-bit reduce then increase gives back every color channel exactly and makes alpha 0xff |
| Pixels.IncreaseSameOffsets | obrender/color.c:140-153 | when the device offsets are the canonical ones, reading the shared buffer back keeps every color channel |
| Pixels.Swap16 | obrender/color.c:252-255 | the 16-bit swap exchanges the high and low byte of the word |
| Pixels.Reverse32 | obrender/color.c:247-255 | the corrected 32-bit swap turns a word stored most significant byte first into the same word in host order |
| Pixels.SwapPairs | obrender/color.c:247-255 | the 32-bit swap as written turns the four bytes, read most significant first, into the word with its 16-bit halves exchanged |
| Pixels.SwapPairsMisreads | obrender/color.c:247-255 | the 32-bit swap as written reads 0x11223344, stored most significant byte first, as 0x33441122 |
| Depth.ReduceDepth | obrender/color.c:125-224 | depths 32, 24, 16 and 8 are converted, and any other ends in g_error with nothing written; on the 32-bit fast path the image takes the canonical buffer as its data; otherwise the image data becomes `Depth.Reduced` of the canonical pixels, the conversion the lemmas below describe pixel by pixel; the byte order is untouched |
| Depth.Reduced32Word | obrender/color.c:143-152 | pixel (y, x) of a 32-bit image is the reduction of canonical pixel (y, x), with rows `width` pixels apart |
| Depth.Reduced32Pixel | obrender/color.c:145-148 | that pixel holds each canonical channel at its device offset |
| Depth.Reduced24Pixel | obrender/color.c:155-175 | the 3-byte pixel (y, x), in rows `bytes_per_line` apart, holds each channel in the byte its offset names |
| Depth.Reduced16Word | obrender/color.c:177-191 | the 16-bit pixel (y, x), in rows `bytes_per_line / 2` words apart, is the shifted and packed canonical pixel |
| Depth.Reduced565Pixel | obrender/color.c:177-191 | on a 5-6-5 visual its fields keep the top 5, 6 and 5 bits of the canonical channels |
| Depth.Reduced555Pixel | obrender/color.c:177-191 | on a 5-5-5 visual its fields keep the top 5 bits of the canonical channels |
| Depth.Reduced8Pixel | obrender/color.c:192-219 | the 8-bit pixel (y, x) is the shifted TrueColor pixel, or the low byte of the palette pixel picked for the color |
| Depth.SwapByteOrder | obrender/color.c:236-271 | the byte order flag flips; 32- and 16-bit pixels are rewritten as `Depth.Swapped` says, the 32-bit ones by the swap as written or, with `corrected`, by the reversal, and 8- and 1-bit ones are left alone; another depth with at least one pixel ends in g_error with nothing changed |
| Depth.SwapTwice | obrender/color.c:236-271 | swapping twice gives back the image data, as written and corrected |
| Depth.Swapped32Word | obrender/color.c:247-255 | after the corrected swap each 32-bit pixel reads as the word its bytes store most significant first |
| Depth.SwappedPairsWord | obrender/color.c:247-255 | the swap as written turns the bytes b0 b1 b2 b3 of a 32-bit pixel into b1 b0 b3 b2 |
| Depth.Swapped16Word | obrender/color.c:252-255 | the 16-bit swap exchanges the two bytes of each pixel |
| Depth.IncreaseDepth | obrender/color.c:273-340 | an image that is not LSBFirst is swapped first, by the swap as written when `corrected` is false; depths 32, 16 and 1 are converted into the canonical buffer, which becomes `Depth.Increased` of the image data, and leave the image LSBFirst; depth 8 and others end in g_error with no pixel written |
| Depth.Increased32Word | obrender/color.c:285-299 | canonical pixel (y, x) is the increase of image pixel (y, x), in rows `bytes_per_line / 4` words apart |
| Depth.Increased32Pixel | obrender/color.c:288-294 | it holds each device channel at its canonical offset and alpha 0xff |
| Depth.Increased16Word | obrender/color.c:300-320 | canonical pixel (y, x) is the increase of 16-bit image pixel (y, x), in rows `bytes_per_line / 2` words apart |
| Depth.Increased16Pixel | obrender/color.c:303-315 | it holds each masked, moved field at its canonical offset and alpha 0xff |
| Depth.Increased1Pixel | obrender/color.c:324-335 | canonical pixel (y, x) is opaque black when bit x % 8 of byte x / 8 of row y is clear, opaque white otherwise |
| Depth.IncreaseReadsPairs | obrender/color.c:267-288 | after the swap as written, a 32-bit MSBFirst image is read pixel by pixel as its stored words with their 16-bit halves exchanged |
| Depth.IncreasedAsWritten32 | obrender/color.c:273-298 | so RrIncreaseDepth as written makes each canonical pixel of such an image from the stored word with its halves exchanged |
| Depth.IncreaseReadsMSBFirst | obrender/color.c:281-297 | after the corrected swap, a 32-bit MSBFirst image is read pixel by pixel as the words it stores |
| Depth.RoundTrip32Image | obrender/color.c:143-152 | on a 32-bit image without row padding, RrReduceDepth then RrIncreaseDepth give back every color channel of every canonical pixel and make it opaque |
| Tile.CaseCmpZero | openbox/actions/tile.c:30-53 | on texts without NUL, the `g_ascii_strcasecmp` loop (`Tile.CaseCmp`) gives 0 exactly when the texts are equal up to ASCII case (`Tile.EqualFold`) |
| Tile.Match | openbox/actions/tile.c:30-53 | the direction found is one the text names; no direction is found only when the text names none |
| Tile.Setup | openbox/actions/tile.c:20-58 | without a direction node the direction is NorthWest; with one it is a direction the text names, or NorthWest |
| Tile.NamesUnique | openbox/actions/tile.c:30-53 | no text names two directions, so the order of the tests does not matter |
| Tile.SetupNamed | openbox/actions/tile.c:25-53 | a text gives direction d exactly when it is d's name or abbreviation in some ASCII case, or when d is NorthWest and the text names no direction |
| Tile.SetupFolds | openbox/actions/tile.c:30-51 | texts that differ only in ASCII case give the same options |
| Tile.Register | openbox/actions/tile.c:14-18 | Tile registers the tiling run function, Untile the untiling one |
| Tile.SharedSetup | openbox/actions/tile.c:16-17 | Tile and Untile read their options with the same parser |

## Left out

- X server calls (`XAllocColor`, `XParseColor`, `XFreeColors`, `XCreateGC`, `XFreeGC`) are foreign. `ColorModel.Device` stands for them, and the cache only counts the calls made. `allocCalls` and `gcCreates` are ordinary fields of `ColorCache.Instance`, because the device answers by the number of the call; `freeCalls` and `gcFrees` are ghost. The cap style given to XCreateGC is not modelled.
- The `g_message` of RrColorParse is output and is left out.
- The `DEBUG` identifiers and the `NO_COLOR_CACHE` build are build-time options outside the default behaviour, and are left out.
- ColorModel.Key: the key is the unsigned value of its 32 bits. In C the signed `gint` overflows for r >= 128. The bit pattern is the same, so distinct colors still get distinct keys.
- ColorModel.Free: the handle must be live on every call. The source asserts the entry's presence only on the last free; a valid `RrColor` pointer is what a live handle means here.
- A color handle is the key of its entry. The `inst` back-pointer of an `RrColor` is the `ColorCache.Instance` the handle belongs to.
- The accessors `RrColorRed`, `RrColorGreen`, `RrColorBlue` and `RrColorPixel` are `ColorModel.Red`, `Green`, `Blue` and `Pixel`. They have no contract of their own; `ColorModel.NewChannels` states what they report.
- `g_assert` in RrColorNew is the `Byte` type of its channels. `g_error` is the result `Fatal`, with nothing written after it, not termination.
- Depth.ReduceDepth: requires the canonical buffer to be distinct from the image data, and both buffers to be as large as the loops assume. The source does not check either.
- Depth.ReduceDepth: on a 24-bit image it requires every device offset to be at most 23 (`Fits24`). A larger offset makes the source store out of bounds (the previous pixel's byte for x >= 1).
- Depth.ReduceDepth: for an indexed 8-bit image it requires the palette to fill the color cube, as the renderer's palette does.
- Depth.IncreaseDepth: requires the same distinct buffers and sizes, including `(width + 7) / 8 <= bytes_per_line` for 1-bit images.
- Depth.IncreaseDepth: `corrected` chooses the 32-bit swap. `IncreaseDepth(..., false)` is the program as written, and `true` is the fix in Findings.
- The pointer walks of each loop nest (`data += width`, `p16 += bytes_per_line / 2` and so on) are the strides of the `Raster.Grid` the nest runs over. The nest itself is the one general loop `Raster.Run`, with the per-depth pixel operation as its cell map.
- `Depth.Word32`, `Word16` and `Bit` read 0 outside the buffer. This only keeps them total; the requirements above keep every read inside.
- Pixels.PickByte gives 0 for a palette smaller than the cube. That case is excluded wherever it is used.
- RrPickColor returns a pointer into the palette of `XColor`s. The model returns the pixel of that entry, the only field the caller reads.
- Pixels.PickIndex is written as the base-2^bits number with digits r, g, b, `(r * 2^bits + g) * 2^bits + b`. This equals the shift-and-add form for channels below 2^bits.
- Pixels.RoundTrip565: the 16-bit round trip is proved for the 5-6-5 and 5-5-5 layouts (`RoundTrip565`, `RoundTrip555`, `Depth.Reduced565Pixel`, `Depth.Reduced555Pixel`), and not for a visual with arbitrary masks. With symbolic shift amounts the bit-vector statement is beyond what the solver proves within its resource limit; `Pixels.Increase16Channels` still states the increase for any layout.
- Depth.Increased16Pixel: characterizes only fields that fit a byte. A wider field carries into the next channel, which the 32-bit sum in `Pixels.Increase16` keeps as written.
- The host is taken to be little-endian: RrPixel32 and RrPixel16 words are stored low byte first.
- Tile: the XML lookup (`obt_xml_find_node`, `obt_xml_node_string`) is foreign. Its result is the optional text given to `Tile.Setup`.
- Tile: `g_free`, `free_func` and the run functions `run_func_on`/`run_func_off` are calls into window-manager state, and are left out.
- Tile: texts are sequences of characters compared as `g_ascii_strcasecmp` compares them, folding only A-Z. An embedded NUL byte is not modelled.

## Findings

| source | as written | input that shows it | evidently intended | confidence | as-written member | corrected member |
|---|---|---|---|---|---|---|
| obrender/color.c:247-255 | the 32-bit case exchanges bytes 2 and 3, then falls through and exchanges bytes 0 and 1, giving b1 b0 b3 b2 | a 32-bit MSBFirst pixel 0x11223344, stored as 11 22 33 44, is read after the swap as 0x33441122 | reverse all four bytes, so that the pixel reads as 0x11223344 | medium, not executed | Pixels.SwapPairsMisreads, Depth.IncreasedAsWritten32 | Depth.Swapped32Word, Depth.IncreaseReadsMSBFirst |
