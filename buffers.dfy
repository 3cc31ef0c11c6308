/**
 * Pixel buffers: a view (width, firstLine, size) over a flat array of
 * colours, cell (x, y) stored at index x + width * y.  A buffer is a plain
 * struct passed by value, so copies of it share the same `data` array.
 *
 * The row loops of clear, expose and writeToImage run y from firstLine up to
 * size (not firstLine + size); the model keeps that bound exactly, and the
 * lemmas at the end work out what that means for partial buffers.
 */
module Buffers {
  import opened Scalars
  import opened Colours

  datatype Buffer = Buffer(width: int, firstLine: int, size: int, data: array<Colour>)

  /** makeBuffer: a whole-screen view of a new, uninitialised array of width * height cells. */
  method MakeBuffer(width: int, height: int) returns (b: Buffer)
    requires 0 <= width && 0 <= height
    ensures b.width == width && b.firstLine == 0 && b.size == height
    ensures fresh(b.data) && b.data.Length == width * height
  {
    var data := new Colour[width * height];
    b := Buffer(width, 0, height, data);
  }

  /**
   * partialBuffer: band `index` of `parts` equal bands.  The band height is
   * the truncated quotient size / parts, and the band starts that many rows
   * per index below `firstLine`.  Width and data are shared with `b`.
   */
  function PartialBuffer(b: Buffer, index: int, parts: int): (p: Buffer)
    requires parts != 0
    ensures p.width == b.width && p.data == b.data
    ensures p.size == CDiv(b.size, parts)
    ensures p.firstLine == b.firstLine + p.size * index
    ensures 0 <= b.size && 0 < parts ==> 0 <= p.size && p.size * parts <= b.size < (p.size + 1) * parts
  {
    var size := CDiv(b.size, parts);
    Buffer(b.width, b.firstLine + size * index, size, b.data)
  }

  /** The index of cell (x, y). */
  function CellIndex(b: Buffer, x: int, y: int): int
  {
    x + b.width * y
  }

  /** setPixel: cell x + width * y becomes c and no other cell changes. */
  method SetPixel(b: Buffer, x: int, y: int, c: Colour)
    requires 0 <= CellIndex(b, x, y) < b.data.Length
    modifies b.data
    ensures b.data[..] == old(b.data[..])[CellIndex(b, x, y) := c]
  {
    b.data[x + b.width * y] := c;
  }

  // ---------------------------------------------------------------- row loops

  /**
   * The cells the nested loops of clear and expose visit: column in
   * [0, width), row in [firstLine, size).  A cell index k has column k % width
   * and row k / width.
   */
  predicate LoopCell(b: Buffer, k: int)
  {
    0 < b.width && 0 <= k && b.firstLine <= k / b.width < b.size
  }

  /** Every index the loops compute lies inside the data array. */
  predicate LoopInBounds(b: Buffer)
  {
    b.width <= 0 || b.size <= b.firstLine || (0 <= b.firstLine && b.width * b.size <= b.data.Length)
  }

  /** The cells after applying f to every loop cell and leaving the others alone. */
  function MapLoopCells(b: Buffer, s: seq<Colour>, f: Colour -> Colour): (r: seq<Colour>)
    ensures |r| == |s|
    ensures forall k :: 0 <= k < |s| ==> r[k] == (if LoopCell(b, k) then f(s[k]) else s[k])
  {
    seq(|s|, k requires 0 <= k < |s| => if LoopCell(b, k) then f(s[k]) else s[k])
  }

  /** Column and row of the index of cell (x, y). */
  lemma CellOf(w: int, x: int, y: int)
    requires 0 <= x < w
    ensures (x + w * y) / w == y && (x + w * y) % w == x
  {
    DivUnique(w, y, x);
    assert x + w * y == w * y + x;
  }

  /** The index of a visited cell is in bounds. */
  lemma CellBound(b: Buffer, x: int, y: int)
    requires LoopInBounds(b)
    requires 0 <= x < b.width && b.firstLine <= y < b.size
    ensures 0 <= CellIndex(b, x, y) < b.data.Length
  {
    var w := b.width;
    assert 0 <= w * y by { assert 0 <= y; }
    assert w * y <= w * (b.size - 1) by { assert y <= b.size - 1; }
    assert w * (b.size - 1) == w * b.size - w;
  }

  /**
   * The nested column/row loop shared by clear and expose: every loop cell
   * is replaced by f of its old value.
   */
  method MapRows(b: Buffer, f: Colour -> Colour)
    requires LoopInBounds(b)
    modifies b.data
    ensures b.data[..] == MapLoopCells(b, old(b.data[..]), f)
  {
    ghost var before := b.data[..];
    var x := 0;
    while x < b.width
      invariant 0 <= x && (0 < b.width ==> x <= b.width)
      invariant forall k :: 0 <= k < b.data.Length ==>
        b.data[k] == (if LoopCell(b, k) && k % b.width < x then f(before[k]) else before[k])
    {
      var y := b.firstLine;
      while y < b.size
        invariant b.firstLine <= y && (b.firstLine < b.size ==> y <= b.size)
        invariant forall k :: 0 <= k < b.data.Length ==>
          b.data[k] == (if LoopCell(b, k) && (k % b.width < x || (k % b.width == x && k / b.width < y))
                        then f(before[k]) else before[k])
      {
        CellBound(b, x, y);
        CellOf(b.width, x, y);
        var p := x + b.width * y;
        forall k | 0 <= k < b.data.Length && k % b.width == x && k / b.width == y
          ensures k == p
        {
          assert k == b.width * (k / b.width) + k % b.width;
        }
        b.data[p] := f(b.data[p]);
        y := y + 1;
      }
      x := x + 1;
    }
    assert b.data[..] == MapLoopCells(b, before, f);
  }

  /** clear: every loop cell becomes opaque black. */
  method Clear(b: Buffer)
    requires LoopInBounds(b)
    modifies b.data
    ensures b.data[..] == MapLoopCells(b, old(b.data[..]), c => Black)
  {
    MapRows(b, c => Black);
  }

  /** The tone mapping expose applies to one cell: scale, gamma 1 / gamma, clip. */
  function ExposeCell(c: Colour, factor: real, gamma: real, pow: (real, real) -> real): (r: Colour)
    requires gamma != 0.0
    ensures InUnit(r) && r.a == c.a
  {
    Clip(ApplyGamma(Scale(c, factor), 1.0 / gamma, pow))
  }

  /** expose: every loop cell is tone mapped. */
  method Expose(b: Buffer, factor: real, gamma: real, pow: (real, real) -> real)
    requires LoopInBounds(b)
    requires gamma != 0.0
    modifies b.data
    ensures b.data[..] == MapLoopCells(b, old(b.data[..]), c => ExposeCell(c, factor, gamma, pow))
  {
    MapRows(b, c => ExposeCell(c, factor, gamma, pow));
  }

  /**
   * What clear promises cell by cell: each cell (x, y) with x in
   * [0, width) and y in [firstLine, size) is black, and every cell whose row
   * is outside that range keeps its value.
   */
  lemma ClearedCells(b: Buffer, s: seq<Colour>)
    requires LoopInBounds(b) && |s| == b.data.Length
    ensures forall x, y :: 0 <= x < b.width && b.firstLine <= y < b.size ==>
      0 <= CellIndex(b, x, y) < |s| && MapLoopCells(b, s, c => Black)[CellIndex(b, x, y)] == Black
    ensures forall k :: 0 <= k < |s| && !LoopCell(b, k) ==> MapLoopCells(b, s, c => Black)[k] == s[k]
  {
    forall x, y | 0 <= x < b.width && b.firstLine <= y < b.size
      ensures 0 <= CellIndex(b, x, y) < |s| && MapLoopCells(b, s, c => Black)[CellIndex(b, x, y)] == Black
    {
      CellBound(b, x, y);
      CellOf(b.width, x, y);
    }
  }

  /** After expose every cell (x, y) of the loop range has its channels in [0, 1]. */
  lemma ExposedCells(b: Buffer, s: seq<Colour>, factor: real, gamma: real, pow: (real, real) -> real)
    requires LoopInBounds(b) && |s| == b.data.Length && gamma != 0.0
    ensures forall x, y :: 0 <= x < b.width && b.firstLine <= y < b.size ==>
      0 <= CellIndex(b, x, y) < |s| &&
      InUnit(MapLoopCells(b, s, c => ExposeCell(c, factor, gamma, pow))[CellIndex(b, x, y)])
  {
    forall x, y | 0 <= x < b.width && b.firstLine <= y < b.size
      ensures 0 <= CellIndex(b, x, y) < |s| &&
        InUnit(MapLoopCells(b, s, c => ExposeCell(c, factor, gamma, pow))[CellIndex(b, x, y)])
    {
      CellBound(b, x, y);
      CellOf(b.width, x, y);
    }
  }

  // ---------------------------------------------------------------- image export

  /** The three integers bmp_pixel receives for a colour: (int) of each channel times 255. */
  function PixelBytes(c: Colour): (p: (int, int, int))
    ensures InUnit(c) ==> 0 <= p.0 <= 255 && 0 <= p.1 <= 255 && 0 <= p.2 <= 255
  {
    var v := GetRGB(c);
    (Trunc(v.x), Trunc(v.y), Trunc(v.z))
  }

  /** An image file as bmp_init and the bmp_pixel calls describe it. */
  datatype Image = Image(name: string, width: int, height: int, pixels: seq<(int, int, int)>)

  /** The pixel bytes of a run of cells, in order. */
  function CellBytes(s: seq<Colour>): (r: seq<(int, int, int)>)
    ensures |r| == |s|
    ensures forall i :: 0 <= i < |s| ==> r[i] == PixelBytes(s[i])
  {
    seq(|s|, i requires 0 <= i < |s| => PixelBytes(s[i]))
  }

  /** Where row y's cells sit in the data array, for a row the loops visit. */
  lemma RowSpan(b: Buffer, y: int)
    requires LoopInBounds(b) && 0 < b.width && b.firstLine <= y < b.size
    ensures 0 <= b.width * b.firstLine <= b.width * y
    ensures b.width * (y + 1) == b.width * y + b.width <= b.data.Length
  {
    MulLe(b.width, b.firstLine, y);
    MulNonNegative(b.width, b.firstLine);
    MulLe(b.width, y + 1, b.size);
  }

  /**
   * writeToImage: the header gives width and size as the dimensions; the
   * pixels are emitted row by row from firstLine to size - 1, x innermost,
   * which is the contiguous run of cells from width * firstLine to
   * width * size.
   */
  method WriteToImage(b: Buffer, filename: string) returns (img: Image)
    requires LoopInBounds(b)
    ensures img.name == filename && img.width == b.width && img.height == b.size
    ensures 0 < b.width && b.firstLine < b.size ==>
      0 <= b.width * b.firstLine <= b.width * b.size <= b.data.Length &&
      img.pixels == CellBytes(b.data[b.width * b.firstLine .. b.width * b.size])
    ensures b.width <= 0 || b.size <= b.firstLine ==> img.pixels == []
  {
    img := Image(filename, b.width, b.size, []);
    var pixels: seq<(int, int, int)> := [];
    ghost var lo := b.width * b.firstLine;
    var y := b.firstLine;
    while y < b.size
      invariant b.firstLine <= y && (b.firstLine < b.size ==> y <= b.size)
      invariant b.size <= b.firstLine ==> y == b.firstLine && pixels == []
      invariant 0 < b.width && b.firstLine < b.size ==>
        0 <= lo <= b.width * y <= b.data.Length && pixels == CellBytes(b.data[lo .. b.width * y])
      invariant b.width <= 0 ==> pixels == []
    {
      ghost var row := b.width * y;
      if 0 < b.width {
        RowSpan(b, y);
      }
      var x := 0;
      while x < b.width
        invariant 0 <= x && (0 < b.width ==> x <= b.width)
        invariant b.width <= 0 ==> pixels == []
        invariant 0 < b.width ==> pixels == CellBytes(b.data[lo .. row + x])
      {
        var c := GetRGB(b.data[x + b.width * y]);
        assert x + b.width * y == row + x;
        assert b.data[lo .. row + x + 1] == b.data[lo .. row + x] + [b.data[row + x]];
        pixels := pixels + [(Trunc(c.x), Trunc(c.y), Trunc(c.z))];
        x := x + 1;
      }
      assert 0 < b.width ==> row + x == b.width * (y + 1);
      y := y + 1;
    }
    img := img.(pixels := pixels);
  }

  /**
   * The byte of a channel in [0, 1] lies in [0, 255] and, divided by 255,
   * is within 1/255 below the channel.
   */
  lemma ByteRoundTrip(v: real)
    requires 0.0 <= v <= 1.0
    ensures 0 <= Trunc(v * 255.0) <= 255
    ensures v - 1.0 / 255.0 < Trunc(v * 255.0) as real / 255.0 <= v
  {
  }

  // ---------------------------------------------------------------- partitions

  /** Row y lies in the band a partial buffer stands for. */
  predicate InBand(p: Buffer, y: int)
  {
    p.firstLine <= y < p.firstLine + p.size
  }

  /** Row y is visited by the row loops of clear, expose and writeToImage. */
  predicate LoopRow(p: Buffer, y: int)
  {
    p.firstLine <= y < p.size
  }

  /** Two different bands of the same split share no row. */
  lemma {:induction false} BandsDisjoint(b: Buffer, i: int, j: int, parts: int, y: int)
    requires 0 < parts && 0 <= b.size
    requires 0 <= i < j < parts
    ensures !(InBand(PartialBuffer(b, i, parts), y) && InBand(PartialBuffer(b, j, parts), y))
  {
    var q := CDiv(b.size, parts);
    MulLe(q, i + 1, j);
    assert q * (i + 1) == q * i + q;
  }

  /** A row of the covered prefix [0, parts * (size / parts)) lies in band y / (size / parts). */
  lemma BandOfRow(b: Buffer, parts: int, y: int) returns (i: int)
    requires 0 < parts && 0 <= b.size
    requires 0 <= y < parts * CDiv(b.size, parts)
    ensures 0 <= i < parts
    ensures CDiv(b.size, parts) * i <= y < CDiv(b.size, parts) * i + CDiv(b.size, parts)
  {
    var q := CDiv(b.size, parts);
    if q <= 0 {
      MulLe(parts, q, 0);
    }
    i := y / q;
    DivUnique(q, i, y % q);
    if i >= parts {
      MulLe(q, parts, i);
    }
  }

  /**
   * For a buffer starting at row 0 the bands of a split cover exactly the
   * rows [0, parts * (size / parts)), a prefix of [0, size).
   */
  lemma {:induction false} BandsCover(b: Buffer, parts: int, y: int)
    requires 0 < parts && 0 <= b.size && b.firstLine == 0
    ensures parts * CDiv(b.size, parts) <= b.size
    ensures (0 <= y < parts * CDiv(b.size, parts)) <==>
      exists i :: 0 <= i < parts && InBand(PartialBuffer(b, i, parts), y)
  {
    var q := CDiv(b.size, parts);
    assert parts * q == q * parts;
    if 0 <= y < parts * q {
      var i := BandOfRow(b, parts, y);
      assert InBand(PartialBuffer(b, i, parts), y);
    }
    if exists i :: 0 <= i < parts && InBand(PartialBuffer(b, i, parts), y) {
      var i :| 0 <= i < parts && InBand(PartialBuffer(b, i, parts), y);
      MulNonNegative(q, i);
      MulLe(q, i + 1, parts);
      assert q * (i + 1) == q * i + q;
    }
  }

  /**
   * Because the row loops stop at `size`, which for a band is the band
   * height, every band after the first of a split starting at row 0 visits
   * no row at all, and the first band visits exactly its own rows.
   */
  lemma LaterBandsVisitNothing(b: Buffer, i: int, parts: int, y: int)
    requires 0 < parts && 0 <= b.size && b.firstLine == 0
    requires 0 <= i < parts
    ensures i >= 1 ==> !LoopRow(PartialBuffer(b, i, parts), y)
    ensures i == 0 ==> (LoopRow(PartialBuffer(b, i, parts), y) <==> InBand(PartialBuffer(b, i, parts), y))
  {
    var q := CDiv(b.size, parts);
    if i >= 1 {
      assert q * i >= q * 1;
    }
  }
}
