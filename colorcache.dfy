/** The color table of one RrInstance, updated in place as obrender/color.c
    does: RrColorNew and RrColorFree change the table and the reference
    counts of its entries, RrColorGC fills in an entry's drawing context while
    it has none. Each method is proved to do what the ColorModel function of
    the same name says, on the abstract value Model(). */
module ColorCache {
  import opened Optional
  import ColorModel

  class Instance {
    /** The X server this instance talks to. */
    const device: ColorModel.Device
    /** RrColorHash: the colors handed out, by key. */
    var table: map<int, ColorModel.Entry>
    /** The calls made to the X server so far. The XAllocColor and XCreateGC
        counts pick the device's answer; the XFreeColors and XFreeGC counts
        only serve the proofs. */
    var allocCalls: nat
    ghost var freeCalls: nat
    var gcCreates: nat
    ghost var gcFrees: nat

    ghost function Model(): ColorModel.Cache
      reads this
    {
      ColorModel.Cache(table, allocCalls, freeCalls, gcCreates, gcFrees)
    }

    ghost predicate Valid()
      reads this
    {
      ColorModel.Valid(Model())
    }

    constructor (device: ColorModel.Device)
      ensures Valid() && this.device == device && Model() == ColorModel.Empty()
    {
      this.device := device;
      table := map[];
      allocCalls, freeCalls, gcCreates, gcFrees := 0, 0, 0, 0;
    }

    method New(r: ColorModel.Byte, g: ColorModel.Byte, b: ColorModel.Byte) returns (c: Option<int>)
      requires Valid()
      modifies this
      ensures Valid() && (Model(), c) == ColorModel.New(old(Model()), device, r, g, b)
    {
      ColorModel.NewValid(Model(), device, r, g, b);
      var key := ColorModel.Key(r, g, b);
      if key in table {
        var e := table[key];
        table := table[key := e.(refcount := e.refcount + 1)];
        c := Some(key);
      } else {
        var got := device.alloc(ColorModel.Request(r), ColorModel.Request(g), ColorModel.Request(b), allocCalls);
        allocCalls := allocCalls + 1;
        if got.Some? {
          table := table[key := ColorModel.Fresh(got.value, key)];
          c := Some(key);
        } else {
          c := None;
        }
      }
    }

    method Parse(name: string) returns (c: Option<int>)
      requires Valid()
      modifies this
      ensures Valid() && (Model(), c) == ColorModel.Parse(old(Model()), device, name)
    {
      var parsed := device.parse(name);
      if parsed.None? {
        c := None;
      } else {
        var x := parsed.value;
        c := New(ColorModel.High(x.red), ColorModel.High(x.green), ColorModel.High(x.blue));
      }
    }

    method Copy(h: int) returns (c: Option<int>)
      requires Valid() && h in table
      modifies this
      ensures Valid() && (Model(), c) == ColorModel.Copy(old(Model()), device, h)
    {
      var e := table[h];
      c := New(e.r, e.g, e.b);
    }

    method Free(h: Option<int>)
      requires Valid() && (h.Some? ==> h.value in table)
      modifies this
      ensures Valid() && Model() == ColorModel.Free(old(Model()), h)
    {
      ColorModel.FreeValid(Model(), h);
      if h.Some? {
        var k := h.value;
        var e := table[k].(refcount := table[k].refcount - 1);
        if e.refcount < 1 {
          table := table - {k};
          if e.pixel != 0 {
            freeCalls := freeCalls + 1;
          }
          if e.gc != 0 {
            gcFrees := gcFrees + 1;
          }
        } else {
          table := table[k := e];
        }
      }
    }

    method AllocateGC(h: int)
      requires Valid() && h in table
      modifies this
      ensures Valid() && Model() == ColorModel.AllocateGC(old(Model()), device, h)
    {
      var e := table[h];
      var gc := device.createGC(e.pixel, gcCreates);
      gcCreates := gcCreates + 1;
      table := table[h := e.(gc := gc)];
    }

    method GC(h: int) returns (gc: nat)
      requires Valid() && h in table
      modifies this
      ensures Valid() && (Model(), gc) == ColorModel.GC(old(Model()), device, h)
    {
      ColorModel.GCValid(Model(), device, h);
      if table[h].gc == 0 {
        AllocateGC(h);
      }
      gc := table[h].gc;
    }
  }
}
