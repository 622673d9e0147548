/** The interning color cache of one render instance (obrender/color.c),
    as values. A color handle is the key under which its RrColor is stored:
    every live RrColor is in its instance's table, so the key names it. The
    X server is an oracle, and the cache keeps a count of the calls made to
    it, so that interning and the pairing of allocations with frees can be
    stated. */
module ColorModel {
  import opened Optional
  import opened Arith

  /** An 8-bit channel, as RrColorNew demands of r, g and b. */
  type Byte = x: int | 0 <= x < 0x100

  /** A 16-bit X channel. */
  type Channel16 = x: int | 0 <= x < 0x10000

  /** An XColor that XAllocColor filled in. */
  datatype DeviceColor = DeviceColor(red: Channel16, green: Channel16, blue: Channel16, pixel: nat)

  /** The channels XParseColor reports. */
  datatype Rgb16 = Rgb16(red: Channel16, green: Channel16, blue: Channel16)

  /** The X server. `alloc(r, g, b, n)` is what the n-th XAllocColor call does
      for that request (None when it fails); `createGC(foreground, n)` is
      the handle the n-th XCreateGC call returns, 0 (None) when it fails. */
  datatype Device = Device(
    alloc: (Channel16, Channel16, Channel16, nat) -> Option<DeviceColor>,
    parse: string -> Option<Rgb16>,
    createGC: (nat, nat) -> nat)

  /** An RrColor: the channels the device gave, its pixel, its key, the number
      of holders and its drawing context, 0 (X's None) while it has none. */
  datatype Entry = Entry(r: Byte, g: Byte, b: Byte, pixel: nat, key: int, refcount: int, gc: nat)

  /** The instance's color table and the number of XAllocColor,
      XFreeColors, XCreateGC and XFreeGC calls made so far. */
  datatype Cache = Cache(table: map<int, Entry>, allocCalls: nat, freeCalls: nat, gcCreates: nat, gcFrees: nat)

  /** Every entry is stored under its own key and has a holder. */
  predicate Valid(c: Cache)
  {
    forall k :: k in c.table ==> c.table[k].key == k && c.table[k].refcount >= 1
  }

  function Empty(): (c: Cache)
    ensures Valid(c) && c.table == map[]
  {
    Cache(map[], 0, 0, 0, 0)
  }

  /** The cache key `(r << 24) + (g << 16) + (b << 8)`, as the unsigned value
      of its 32 bits: each channel can be read back from it. */
  function Key(r: Byte, g: Byte, b: Byte): (k: int)
    ensures k / 0x1000000 == r && (k / 0x10000) % 0x100 == g && (k / 0x100) % 0x100 == b && k % 0x100 == 0
  {
    KeyDigits(r, g, b);
    r * 0x1000000 + g * 0x10000 + b * 0x100
  }

  lemma KeyDigits(r: Byte, g: Byte, b: Byte)
    ensures var k := r * 0x1000000 + g * 0x10000 + b * 0x100;
      k / 0x1000000 == r && (k / 0x10000) % 0x100 == g && (k / 0x100) % 0x100 == b && k % 0x100 == 0
  {
    var k := r * 0x1000000 + g * 0x10000 + b * 0x100;
    DivModUnique(k, 0x1000000, r, g * 0x10000 + b * 0x100);
    DivModUnique(k, 0x10000, r * 0x100 + g, b * 0x100);
    DivModUnique(r * 0x100 + g, 0x100, r, g);
    DivModUnique(k, 0x100, r * 0x10000 + g * 0x100 + b, 0);
    DivModUnique(r * 0x10000 + g * 0x100 + b, 0x100, r * 0x100 + g, b);
  }

  /** Distinct colors never share an entry. */
  lemma KeyInjective(r: Byte, g: Byte, b: Byte, r': Byte, g': Byte, b': Byte)
    ensures Key(r, g, b) == Key(r', g', b') <==> r == r' && g == g' && b == b'
  {
  }

  /** The high byte of an X channel, `c >> 8`. */
  function High(c: Channel16): Byte
  {
    c / 0x100
  }

  /** The X channel requested for an 8-bit one, `(c << 8) | c`: c in both
      bytes. */
  function Request(c: Byte): (w: Channel16)
    ensures High(w) == c && w % 0x100 == c
  {
    DivModUnique(c * 0x100 + c, 0x100, c, c);
    c * 0x100 + c
  }

  /** The entry made for a color the device allocated. */
  function Fresh(d: DeviceColor, key: int): Entry
  {
    Entry(High(d.red), High(d.green), High(d.blue), d.pixel, key, 1, 0)
  }

  /** RrColorNew: a hit takes one more reference to the stored color; a miss
      asks the device and stores what it allocated; a failed allocation
      gives NULL. */
  function New(c: Cache, dev: Device, r: Byte, g: Byte, b: Byte): (res: (Cache, Option<int>))
    ensures res.1.Some? ==> res.1.value == Key(r, g, b) && res.1.value in res.0.table
    ensures res.1.None? ==> res.0.table == c.table
    ensures res.0.freeCalls == c.freeCalls && res.0.gcCreates == c.gcCreates && res.0.gcFrees == c.gcFrees
    ensures res.0.allocCalls == c.allocCalls + (if Key(r, g, b) in c.table then 0 else 1)
    ensures forall k :: k != Key(r, g, b) ==> (k in res.0.table <==> k in c.table)
    ensures forall k :: k != Key(r, g, b) && k in c.table ==> res.0.table[k] == c.table[k]
  {
    var key := Key(r, g, b);
    if key in c.table then
      var e := c.table[key];
      (c.(table := c.table[key := e.(refcount := e.refcount + 1)]), Some(key))
    else
      var c1 := c.(allocCalls := c.allocCalls + 1);
      match dev.alloc(Request(r), Request(g), Request(b), c.allocCalls)
      case None => (c1, None)
      case Some(d) => (c1.(table := c.table[key := Fresh(d, key)]), Some(key))
  }

  /** RrColorParse: NULL, with nothing allocated, for a name the device does
      not know; otherwise the color of the high bytes of what it parsed. */
  function Parse(c: Cache, dev: Device, name: string): (res: (Cache, Option<int>))
    ensures dev.parse(name).None? ==> res == (c, None)
    ensures res.1.Some? ==>
      (dev.parse(name).Some? &&
       res.1.value == Key(High(dev.parse(name).value.red), High(dev.parse(name).value.green),
                          High(dev.parse(name).value.blue)))
  {
    match dev.parse(name)
    case None => (c, None)
    case Some(x) => New(c, dev, High(x.red), High(x.green), High(x.blue))
  }

  /** RrColorCopy: a new reference obtained through RrColorNew on the
      channels the color holds. */
  function Copy(c: Cache, dev: Device, h: int): (res: (Cache, Option<int>))
    requires h in c.table
    ensures res.1.Some? ==> res.1.value == Key(c.table[h].r, c.table[h].g, c.table[h].b)
  {
    var e := c.table[h];
    New(c, dev, e.r, e.g, e.b)
  }

  /** RrColorFree: NULL is ignored; otherwise one reference is dropped, and
      the last one takes the entry out of the table and frees its pixel and
      its drawing context if it has them. */
  function Free(c: Cache, h: Option<int>): (res: Cache)
    requires h.Some? ==> h.value in c.table
    ensures h.None? ==> res == c
    ensures h.Some? && c.table[h.value].refcount > 1 ==>
      res == c.(table := c.table[h.value := c.table[h.value].(refcount := c.table[h.value].refcount - 1)])
    ensures h.Some? && c.table[h.value].refcount <= 1 ==>
      res.table == c.table - {h.value} && res.allocCalls == c.allocCalls && res.gcCreates == c.gcCreates
      && res.freeCalls == c.freeCalls + (if c.table[h.value].pixel != 0 then 1 else 0)
      && res.gcFrees == c.gcFrees + (if c.table[h.value].gc != 0 then 1 else 0)
  {
    match h
    case None => c
    case Some(k) =>
      var e := c.table[k];
      if e.refcount - 1 < 1 then
        c.(table := c.table - {k},
           freeCalls := c.freeCalls + (if e.pixel != 0 then 1 else 0),
           gcFrees := c.gcFrees + (if e.gc != 0 then 1 else 0))
      else
        c.(table := c.table[k := e.(refcount := e.refcount - 1)])
  }

  /** RrColorAllocateGC: a new drawing context whose foreground is the
      color's pixel. */
  function AllocateGC(c: Cache, dev: Device, h: int): (res: Cache)
    requires h in c.table
    ensures h in res.table && res.table[h].gc == dev.createGC(c.table[h].pixel, c.gcCreates)
    ensures res.table[h] == c.table[h].(gc := res.table[h].gc)
    ensures res.table.Keys == c.table.Keys && forall k :: k in c.table && k != h ==> res.table[k] == c.table[k]
    ensures res.gcCreates == c.gcCreates + 1 && res.allocCalls == c.allocCalls
  {
    var e := c.table[h];
    c.(table := c.table[h := e.(gc := dev.createGC(e.pixel, c.gcCreates))], gcCreates := c.gcCreates + 1)
  }

  /** RrColorGC: the color's drawing context, made while it has none: on
      first use, and again after an XCreateGC that failed. */
  function GC(c: Cache, dev: Device, h: int): (res: (Cache, nat))
    requires h in c.table
    ensures h in res.0.table && res.0.table[h].gc == res.1
    ensures c.table[h].gc != 0 ==> res == (c, c.table[h].gc)
    ensures c.table[h].gc == 0 ==> res.1 == dev.createGC(c.table[h].pixel, c.gcCreates)
    ensures res.0.gcCreates == c.gcCreates + (if c.table[h].gc == 0 then 1 else 0)
  {
    var e := c.table[h];
    if e.gc == 0 then
      var c1 := AllocateGC(c, dev, h);
      (c1, c1.table[h].gc)
    else
      (c, e.gc)
  }

  /** RrColorRed, RrColorGreen, RrColorBlue and RrColorPixel. */
  function Red(c: Cache, h: int): (v: Byte)
    requires h in c.table
  {
    c.table[h].r
  }

  function Green(c: Cache, h: int): (v: Byte)
    requires h in c.table
  {
    c.table[h].g
  }

  function Blue(c: Cache, h: int): (v: Byte)
    requires h in c.table
  {
    c.table[h].b
  }

  function Pixel(c: Cache, h: int): (v: nat)
    requires h in c.table
  {
    c.table[h].pixel
  }

  // ---------------------------------------------------------------------
  // Properties.

  /** A hit asks nothing of the device and takes one more reference; freeing
      that reference gives the cache back. */
  lemma NewHit(c: Cache, dev: Device, r: Byte, g: Byte, b: Byte)
    requires Key(r, g, b) in c.table
    ensures var res, k := New(c, dev, r, g, b), Key(r, g, b);
      res.1 == Some(k) && res.0.allocCalls == c.allocCalls
      && res.0.table[k] == c.table[k].(refcount := c.table[k].refcount + 1)
  {
  }

  /** A miss that the device satisfies stores one reference to what it
      allocated for the request with each channel in both bytes. */
  lemma NewMiss(c: Cache, dev: Device, r: Byte, g: Byte, b: Byte, d: DeviceColor)
    requires Key(r, g, b) !in c.table
    requires dev.alloc(Request(r), Request(g), Request(b), c.allocCalls) == Some(d)
    ensures var res, k := New(c, dev, r, g, b), Key(r, g, b);
      res.1 == Some(k) && res.0.allocCalls == c.allocCalls + 1 &&
      res.0.table[k].refcount == 1 && res.0.table[k].gc == 0 && res.0.table[k].key == k
  {
  }

  /** The accessors of a newly allocated color report the high bytes of the
      channels the device gave and its pixel, not the channels asked for. */
  lemma NewChannels(c: Cache, dev: Device, r: Byte, g: Byte, b: Byte, d: DeviceColor)
    requires Key(r, g, b) !in c.table
    requires dev.alloc(Request(r), Request(g), Request(b), c.allocCalls) == Some(d)
    ensures var res, k := New(c, dev, r, g, b), Key(r, g, b);
      k in res.0.table
      && Red(res.0, k) == High(d.red) && Green(res.0, k) == High(d.green) && Blue(res.0, k) == High(d.blue)
      && Pixel(res.0, k) == d.pixel
  {
  }

  /** A failed allocation gives NULL and leaves the table alone. */
  lemma NewFails(c: Cache, dev: Device, r: Byte, g: Byte, b: Byte)
    requires Key(r, g, b) !in c.table
    requires dev.alloc(Request(r), Request(g), Request(b), c.allocCalls) == None
    ensures New(c, dev, r, g, b) == (c.(allocCalls := c.allocCalls + 1), None)
  {
  }

  /** Freeing a reference taken by a hit undoes it. */
  lemma FreeUndoesHit(c: Cache, dev: Device, r: Byte, g: Byte, b: Byte)
    requires Valid(c) && Key(r, g, b) in c.table
    ensures var res := New(c, dev, r, g, b); res.1.Some? && res.1.value in res.0.table && Free(res.0, res.1) == c
  {
    var k := Key(r, g, b);
    var res := New(c, dev, r, g, b);
    assert res.0.table[k := c.table[k]] == c.table;
  }

  lemma NewValid(c: Cache, dev: Device, r: Byte, g: Byte, b: Byte)
    requires Valid(c)
    ensures Valid(New(c, dev, r, g, b).0)
  {
  }

  lemma FreeValid(c: Cache, h: Option<int>)
    requires Valid(c) && (h.Some? ==> h.value in c.table)
    ensures Valid(Free(c, h))
  {
  }

  lemma GCValid(c: Cache, dev: Device, h: int)
    requires Valid(c) && h in c.table
    ensures Valid(GC(c, dev, h).0)
  {
  }

  /** Asking for the drawing context again changes nothing and gives the same
      handle once one was made; after a failed XCreateGC it asks the device
      again. */
  lemma GCTwice(c: Cache, dev: Device, h: int)
    requires h in c.table
    ensures var once := GC(c, dev, h); h in once.0.table
    ensures var once := GC(c, dev, h); once.1 != 0 ==> GC(once.0, dev, h) == once
    ensures var once := GC(c, dev, h); once.1 == 0 ==>
      GC(once.0, dev, h).0.gcCreates == once.0.gcCreates + 1
      && GC(once.0, dev, h).1 == dev.createGC(c.table[h].pixel, once.0.gcCreates)
  {
  }

  /** Copying a color whose channels are the ones it was asked for takes
      another reference to the same entry, with no allocation. */
  lemma CopyExact(c: Cache, dev: Device, h: int)
    requires Valid(c) && h in c.table && Key(Red(c, h), Green(c, h), Blue(c, h)) == h
    ensures var res := Copy(c, dev, h);
      res.1 == Some(h) && res.0.allocCalls == c.allocCalls
      && res.0.table[h] == c.table[h].(refcount := c.table[h].refcount + 1)
  {
    NewHit(c, dev, Red(c, h), Green(c, h), Blue(c, h));
  }

  /** n calls of RrColorNew for one color. */
  function NewTimes(c: Cache, dev: Device, r: Byte, g: Byte, b: Byte, n: nat): Cache
  {
    if n == 0 then c else New(NewTimes(c, dev, r, g, b, n - 1), dev, r, g, b).0
  }

  /** n calls of RrColorFree on one key, while it is live. */
  function FreeTimes(c: Cache, h: int, n: nat): Cache
  {
    if n == 0 then c
    else
      var d := FreeTimes(c, h, n - 1);
      if h in d.table then Free(d, Some(h)) else d
  }

  /** After the first allocation, further requests only count references. */
  lemma {:induction false} NewTimesStored(c: Cache, dev: Device, r: Byte, g: Byte, b: Byte, d: DeviceColor, n: nat)
    requires Key(r, g, b) !in c.table && n >= 1
    requires dev.alloc(Request(r), Request(g), Request(b), c.allocCalls) == Some(d)
    ensures var k := Key(r, g, b);
      NewTimes(c, dev, r, g, b, n) == c.(table := c.table[k := Fresh(d, k).(refcount := n)], allocCalls := c.allocCalls + 1)
  {
    var k := Key(r, g, b);
    if n > 1 {
      NewTimesStored(c, dev, r, g, b, d, n - 1);
      var prev := NewTimes(c, dev, r, g, b, n - 1);
      assert prev.table[k := Fresh(d, k).(refcount := n)] == c.table[k := Fresh(d, k).(refcount := n)];
    }
  }

  /** All but the last free only drop references. */
  lemma {:induction false} FreeTimesDrops(c: Cache, h: int, n: nat)
    requires h in c.table && c.table[h].refcount > n
    ensures FreeTimes(c, h, n) == c.(table := c.table[h := c.table[h].(refcount := c.table[h].refcount - n)])
  {
    if n == 0 {
      assert c.table[h := c.table[h]] == c.table;
    } else {
      FreeTimesDrops(c, h, n - 1);
      var prev := FreeTimes(c, h, n - 1);
      assert prev.table[h := c.table[h].(refcount := c.table[h].refcount - n)]
          == c.table[h := c.table[h].(refcount := c.table[h].refcount - n)];
    }
  }

  /** Interning: n requests for a color that is not cached, followed by n
      frees, make exactly one allocation, free its pixel once (when it is
      not zero) and leave the table as it was. */
  lemma Interning(c: Cache, dev: Device, r: Byte, g: Byte, b: Byte, d: DeviceColor, n: nat)
    requires Key(r, g, b) !in c.table && n >= 1
    requires dev.alloc(Request(r), Request(g), Request(b), c.allocCalls) == Some(d)
    ensures var after := FreeTimes(NewTimes(c, dev, r, g, b, n), Key(r, g, b), n);
      after.table == c.table && after.allocCalls == c.allocCalls + 1
      && after.freeCalls == c.freeCalls + (if d.pixel != 0 then 1 else 0)
      && after.gcCreates == c.gcCreates && after.gcFrees == c.gcFrees
  {
    var k := Key(r, g, b);
    NewTimesStored(c, dev, r, g, b, d, n);
    var full := NewTimes(c, dev, r, g, b, n);
    FreeTimesDrops(full, k, n - 1);
    var last := FreeTimes(full, k, n - 1);
    assert last.table[k].refcount == 1;
    assert last.table - {k} == c.table;
  }
}
