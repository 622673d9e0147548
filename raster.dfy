/** The shape shared by every loop of the depth conversions: for each row y
    and each column x, rewrite the bytes of one pixel cell of an output buffer
    whose rows start `stride` bytes apart. `Partial` is the buffer after the
    loops have handled every cell before (y, x) in row-major order; `Convert`
    is the buffer once they are done. */
module Raster {
  import opened Bytes
  import opened Arith

  /** `height` rows, `stride` bytes apart, of `width` cells of `cell` bytes. */
  datatype Grid = Grid(width: nat, height: nat, stride: nat, cell: nat)

  /** The first byte of cell (y, x). */
  function Start(g: Grid, y: int, x: int): int
  {
    y * g.stride + g.cell * x
  }

  predicate InCell(g: Grid, y: int, x: int, j: int)
  {
    Start(g, y, x) <= j < Start(g, y, x) + g.cell
  }

  /** Cells are not empty, rows do not overlap and the last one ends inside a
      buffer of n bytes. */
  predicate Fits(g: Grid, n: int)
  {
    0 < g.cell && g.cell * g.width <= g.stride && g.height * g.stride <= n
  }

  /** The new contents of cell (y, x), given its contents before the write. */
  type CellMap = (int, int, seq<bv8>) -> seq<bv8>

  ghost predicate Sized(g: Grid, f: CellMap)
  {
    forall y, x, c :: |c| == g.cell ==> |f(y, x, c)| == g.cell
  }

  /** The row and the column of the cell that byte j would belong to. */
  function Row(g: Grid, j: nat): nat
  {
    if g.stride == 0 then 0 else j / g.stride
  }

  function Col(g: Grid, j: nat): nat
  {
    if g.stride == 0 || g.cell == 0 then 0 else (j % g.stride) / g.cell
  }

  /** Byte j belongs to a cell of the grid. */
  predicate Covered(g: Grid, j: int)
  {
    0 <= j && 0 < g.stride && 0 < g.cell && Row(g, j) < g.height && Col(g, j) < g.width
  }

  lemma CellFits(g: Grid, n: int, y: int, x: int)
    requires Fits(g, n) && 0 <= y < g.height && 0 <= x < g.width
    ensures 0 <= Start(g, y, x) && Start(g, y, x) + g.cell <= n
  {
    MulMono(g.cell, x + 1, g.width);
    MulMono(g.stride, y + 1, g.height);
    assert g.stride * (y + 1) == y * g.stride + g.stride;
    assert g.cell * (x + 1) == g.cell * x + g.cell;
  }

  /** A covered byte lies in the cell that Row and Col name. */
  lemma Locate(g: Grid, j: int)
    requires Covered(g, j)
    ensures InCell(g, Row(g, j), Col(g, j), j)
  {
    var q, r := j / g.stride, j % g.stride;
    assert j == q * g.stride + r;
    assert r == g.cell * (r / g.cell) + r % g.cell;
  }

  /** The bytes of cell (y, x) are covered, and Row and Col name that cell. */
  lemma Unique(g: Grid, y: int, x: int, j: int)
    requires g.cell * g.width <= g.stride && 0 < g.cell
    requires 0 <= y < g.height && 0 <= x < g.width && InCell(g, y, x, j)
    ensures Covered(g, j) && Row(g, j) == y && Col(g, j) == x
  {
    var k := j - Start(g, y, x);
    MulMono(g.cell, x + 1, g.width);
    assert g.cell * (x + 1) == g.cell * x + g.cell;
    DivModUnique(j, g.stride, y, g.cell * x + k);
    DivModUnique(g.cell * x + k, g.cell, x, k);
  }

  /** Cell (y, x) comes before (y0, x0) in row-major order. */
  predicate Earlier(y: int, x: int, y0: int, x0: int)
  {
    y < y0 || (y == y0 && x < x0)
  }

  /** The new value of covered byte j. */
  function New(g: Grid, f: CellMap, m: seq<bv8>, j: int): bv8
    requires Fits(g, |m|) && Sized(g, f) && Covered(g, j)
  {
    var y, x := Row(g, j), Col(g, j);
    Locate(g, j);
    CellFits(g, |m|, y, x);
    var s := Start(g, y, x);
    f(y, x, m[s..s + g.cell])[j - s]
  }

  /** m once every cell before (y, x) has been rewritten. */
  function Partial(g: Grid, f: CellMap, m: seq<bv8>, y: int, x: int): (r: seq<bv8>)
    requires Fits(g, |m|) && Sized(g, f)
    ensures |r| == |m|
  {
    seq(|m|, j requires 0 <= j < |m| =>
      if Covered(g, j) && Earlier(Row(g, j), Col(g, j), y, x) then New(g, f, m, j) else m[j])
  }

  /** m once every cell has been rewritten. */
  function Convert(g: Grid, f: CellMap, m: seq<bv8>): (r: seq<bv8>)
    requires Fits(g, |m|) && Sized(g, f)
    ensures |r| == |m|
  {
    Partial(g, f, m, g.height, 0)
  }

  lemma Initial(g: Grid, f: CellMap, m: seq<bv8>)
    requires Fits(g, |m|) && Sized(g, f)
    ensures Partial(g, f, m, 0, 0) == m
  {
  }

  lemma NextRow(g: Grid, f: CellMap, m: seq<bv8>, y: int)
    requires Fits(g, |m|) && Sized(g, f)
    ensures Partial(g, f, m, y, g.width) == Partial(g, f, m, y + 1, 0)
  {
  }

  /** Before its own write, cell (y, x) still holds what it held at first. */
  lemma Untouched(g: Grid, f: CellMap, m: seq<bv8>, y: int, x: int)
    requires Fits(g, |m|) && Sized(g, f)
    requires 0 <= y < g.height && 0 <= x < g.width
    ensures 0 <= Start(g, y, x) && Start(g, y, x) + g.cell <= |m|
    ensures Partial(g, f, m, y, x)[Start(g, y, x)..Start(g, y, x) + g.cell]
         == m[Start(g, y, x)..Start(g, y, x) + g.cell]
  {
    CellFits(g, |m|, y, x);
    var s := Start(g, y, x);
    var p := Partial(g, f, m, y, x);
    forall j | s <= j < s + g.cell
      ensures p[j] == m[j]
    {
      Unique(g, y, x, j);
    }
  }

  /** Writing cell (y, x) takes the loops one cell further. */
  lemma Step(g: Grid, f: CellMap, m: seq<bv8>, y: int, x: int)
    requires Fits(g, |m|) && Sized(g, f)
    requires 0 <= y < g.height && 0 <= x < g.width
    ensures 0 <= Start(g, y, x) && Start(g, y, x) + g.cell <= |m|
    ensures Put(Partial(g, f, m, y, x), Start(g, y, x), f(y, x, m[Start(g, y, x)..Start(g, y, x) + g.cell]))
         == Partial(g, f, m, y, x + 1)
  {
    CellFits(g, |m|, y, x);
    var s := Start(g, y, x);
    var v := f(y, x, m[s..s + g.cell]);
    var p, q := Partial(g, f, m, y, x), Partial(g, f, m, y, x + 1);
    var r := Put(p, s, v);
    forall j | 0 <= j < |m|
      ensures r[j] == q[j]
    {
      if s <= j < s + g.cell {
        Unique(g, y, x, j);
        assert r[j] == v[j - s];
      } else if Covered(g, j) {
        Locate(g, j);
      }
    }
  }

  /** What a cell holds in the end. */
  lemma ConvertAt(g: Grid, f: CellMap, m: seq<bv8>, y: int, x: int)
    requires Fits(g, |m|) && Sized(g, f)
    requires 0 <= y < g.height && 0 <= x < g.width
    ensures 0 <= Start(g, y, x) && Start(g, y, x) + g.cell <= |m|
    ensures Convert(g, f, m)[Start(g, y, x)..Start(g, y, x) + g.cell]
         == f(y, x, m[Start(g, y, x)..Start(g, y, x) + g.cell])
  {
    CellFits(g, |m|, y, x);
    var s := Start(g, y, x);
    var r := Convert(g, f, m);
    forall j | s <= j < s + g.cell
      ensures r[j] == f(y, x, m[s..s + g.cell])[j - s]
    {
      Unique(g, y, x, j);
    }
  }

  /** A byte outside every cell keeps its value. */
  lemma ConvertFrame(g: Grid, f: CellMap, m: seq<bv8>, j: int)
    requires Fits(g, |m|) && Sized(g, f)
    requires 0 <= j < |m| && !Covered(g, j)
    ensures Convert(g, f, m)[j] == m[j]
  {
  }

  /** When f undoes itself on every cell, converting twice gives back the buffer. */
  lemma ConvertTwice(g: Grid, f: CellMap, m: seq<bv8>)
    requires Fits(g, |m|) && Sized(g, f)
    requires forall y, x, c :: |c| == g.cell ==> f(y, x, f(y, x, c)) == c
    ensures Convert(g, f, Convert(g, f, m)) == m
  {
    var once := Convert(g, f, m);
    var twice := Convert(g, f, once);
    forall j | 0 <= j < |m|
      ensures twice[j] == m[j]
    {
      if Covered(g, j) {
        var y, x := Row(g, j), Col(g, j);
        Locate(g, j);
        ConvertAt(g, f, m, y, x);
        ConvertAt(g, f, once, y, x);
        var s := Start(g, y, x);
        assert twice[s..s + g.cell] == m[s..s + g.cell];
        assert twice[j] == twice[s..s + g.cell][j - s];
      }
    }
  }

  /** The nested loops of a depth conversion: row by row, each cell of the
      grid is read, passed through f and stored back. */
  method Run(a: array<bv8>, g: Grid, f: CellMap)
    requires Fits(g, a.Length) && Sized(g, f)
    modifies a
    ensures a[..] == Convert(g, f, old(a[..]))
  {
    ghost var m := a[..];
    Initial(g, f, m);
    var y, row := 0, 0;
    while y < g.height
      invariant 0 <= y <= g.height && row == y * g.stride
      invariant a[..] == Partial(g, f, m, y, 0)
    {
      var x := 0;
      while x < g.width
        invariant 0 <= x <= g.width
        invariant a[..] == Partial(g, f, m, y, x)
      {
        CellFits(g, a.Length, y, x);
        var s := row + g.cell * x;
        Untouched(g, f, m, y, x);
        Step(g, f, m, y, x);
        Write(a, s, f(y, x, a[s..s + g.cell]));
        x := x + 1;
      }
      NextRow(g, f, m, y);
      row := row + g.stride;
      y := y + 1;
    }
  }

  /** The store of one pixel: v written at byte s. */
  method Write(a: array<bv8>, s: int, v: seq<bv8>)
    requires 0 <= s && s + |v| <= a.Length
    modifies a
    ensures a[..] == Put(old(a[..]), s, v)
  {
    var k := 0;
    while k < |v|
      invariant 0 <= k <= |v|
      invariant a[..] == old(a[..])[..s] + v[..k] + old(a[..])[s + k..]
    {
      a[s + k] := v[k];
      k := k + 1;
    }
  }
}
