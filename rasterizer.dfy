/**
 * The scan converter of rasterizer.c.  `rasterize` drains the model's
 * cursor and, per triangle, culls back faces, sets up three edge functions
 * in screen space, clamps a bounding box to the WIDTH x HEIGHT screen and
 * fills the covered pixels that win a strict greater-than depth test,
 * writing the depth buffer and the pixel buffer together.
 *
 * The effect on the two buffers is specified by folds over pixels, rows
 * and triangles (DrawSpan, DrawRows, DrawTriangle, DrawTriangles); the
 * lemmas at the end characterise those folds pixel by pixel.
 */
module Rasterizer {
  import opened Scalars
  import opened Colours
  import opened Buffers
  import opened Triangles
  import opened Models

  const WIDTH: int := 320
  const HEIGHT: int := 240

  datatype Option<T> = None | Some(value: T)

  /**
   * What rasterize takes from its surroundings: the global window `width`
   * and `height` (used by SCREEN_X / SCREEN_Y, and `width` as the depth
   * buffer's row stride), the pixel buffer's own row stride, and the float
   * square root and reciprocal (1.0f / z).
   */
  datatype Env = Env(width: int, height: int, pixelWidth: int, sqrt: real -> real, recip: real -> real)

  /** The two buffers rasterize writes: depth zbuf[y * width + x], pixels data[x + pixelWidth * y]. */
  datatype Frame = Frame(z: seq<real>, p: seq<Colour>)

  /** The local `tri` record: screen vertices, unit edge normals, normalisers, clipped box. */
  datatype Tri = Tri(sx: seq<real>, sy: seq<real>, nx: seq<real>, ny: seq<real>, b: seq<real>,
                     xmin: int, xmax: int, ymin: int, ymax: int)

  function MaxInt(a: int, b: int): int { if a >= b then a else b }
  function MinInt(a: int, b: int): int { if a <= b then a else b }

  // ---------------------------------------------------------------- set-up

  /** SCREEN_X: normalised x in [-1, 1] to pixels, with C's integer width / 2. */
  function ScreenX(p: real, env: Env): real
  {
    (p + 1.0) * (CDiv(env.width, 2) as real)
  }

  /** SCREEN_Y: the same with the window height. */
  function ScreenY(p: real, env: Env): real
  {
    (p + 1.0) * (CDiv(env.height, 2) as real)
  }

  /** z of the cross product (v1 - v0) x (v2 - v0) in normalised coordinates. */
  function Cross(t: Triangle): real
  {
    var v0, v1, v2 := t.vertices.c0, t.vertices.c1, t.vertices.c2;
    (v1.x - v0.x) * (v2.y - v0.y) - (v2.x - v0.x) * (v1.y - v0.y)
  }

  /** The cull test: a negative cross product means the triangle faces away. */
  predicate BackFacing(t: Triangle)
  {
    Cross(t) < 0.0
  }

  /**
   * SCREEN_X and SCREEN_Y send -1 to pixel 0 and 1 to twice the halved
   * window size (the size itself when it is even), and keep the order of
   * coordinates when the size is non-negative.
   */
  lemma ScreenEnds(env: Env, p: real, q: real)
    ensures ScreenX(-1.0, env) == 0.0 && ScreenY(-1.0, env) == 0.0
    ensures ScreenX(1.0, env) == (2 * CDiv(env.width, 2)) as real
    ensures ScreenY(1.0, env) == (2 * CDiv(env.height, 2)) as real
    ensures 0 <= env.width && env.width % 2 == 0 ==> ScreenX(1.0, env) == env.width as real
    ensures 0 <= env.height && env.height % 2 == 0 ==> ScreenY(1.0, env) == env.height as real
    ensures 0 <= env.width && p <= q ==> ScreenX(p, env) <= ScreenX(q, env)
    ensures 0 <= env.height && p <= q ==> ScreenY(p, env) <= ScreenY(q, env)
  {
    var cw, ch := CDiv(env.width, 2) as real, CDiv(env.height, 2) as real;
    if 0 <= env.width && p <= q {
      assert 0.0 <= cw;
      MulMonotone(p + 1.0, q + 1.0, cw);
    }
    if 0 <= env.height && p <= q {
      assert 0.0 <= ch;
      MulMonotone(p + 1.0, q + 1.0, ch);
    }
  }

  /** Multiplying by a non-negative factor keeps order. */
  lemma MulMonotone(a: real, b: real, c: real)
    requires a <= b && 0.0 <= c
    ensures a * c <= b * c
  {
  }

  /** The same corners with vertex 0 moved to the end. */
  function Rotated(t: Triangle): Triangle
  {
    t.(vertices := Triple(t.vertices.c1, t.vertices.c2, t.vertices.c0))
  }

  /** The same corners in the opposite winding: vertices 1 and 2 swapped. */
  function Mirrored(t: Triangle): Triangle
  {
    t.(vertices := Triple(t.vertices.c0, t.vertices.c2, t.vertices.c1))
  }

  /**
   * The cull test depends on the winding only: renumbering the corners
   * cyclically keeps the cross product, reversing the winding negates it,
   * so of a triangle and its mirror image with non-zero area exactly one
   * is culled.
   */
  lemma CullWinding(t: Triangle)
    ensures Cross(Rotated(t)) == Cross(t) && BackFacing(Rotated(t)) == BackFacing(t)
    ensures Cross(Mirrored(t)) == -Cross(t)
    ensures Cross(t) != 0.0 ==> (BackFacing(t) <==> !BackFacing(Mirrored(t)))
    ensures Cross(t) == 0.0 ==> !BackFacing(t) && !BackFacing(Mirrored(t))
  {
  }

  function ScreenXs(t: Triangle, env: Env): (s: seq<real>)
    ensures |s| == 3
  {
    seq(3, i requires 0 <= i < 3 => ScreenX(t.vertices.At(i).x, env))
  }

  function ScreenYs(t: Triangle, env: Env): (s: seq<real>)
    ensures |s| == 3
  {
    seq(3, i requires 0 <= i < 3 => ScreenY(t.vertices.At(i).y, env))
  }

  /** The edge from vertex i to vertex i + 1 turned a quarter: (-(dy), dx). */
  function RawNX(sy: seq<real>, i: int): real
    requires |sy| == 3 && 0 <= i < 3
  {
    -(sy[(i + 1) % 3] - sy[i])
  }

  function RawNY(sx: seq<real>, i: int): real
    requires |sx| == 3 && 0 <= i < 3
  {
    sx[(i + 1) % 3] - sx[i]
  }

  function Norm2(a: real, b: real): real
  {
    a * a + b * b
  }

  /** The length l the normal of edge i is divided by. */
  function EdgeLength(sx: seq<real>, sy: seq<real>, i: int, env: Env): real
    requires |sx| == 3 && |sy| == 3 && 0 <= i < 3
  {
    env.sqrt(Norm2(RawNX(sy, i), RawNY(sx, i)))
  }

  /** Some edge has length zero: two screen vertices coincide. */
  predicate Flat(sx: seq<real>, sy: seq<real>, env: Env)
    requires |sx| == 3 && |sy| == 3
  {
    EdgeLength(sx, sy, 0, env) == 0.0 || EdgeLength(sx, sy, 1, env) == 0.0 || EdgeLength(sx, sy, 2, env) == 0.0
  }

  function UnitNX(sx: seq<real>, sy: seq<real>, env: Env): (n: seq<real>)
    requires |sx| == 3 && |sy| == 3 && !Flat(sx, sy, env)
    ensures |n| == 3
  {
    seq(3, i requires 0 <= i < 3 => RawNX(sy, i) / EdgeLength(sx, sy, i, env))
  }

  function UnitNY(sx: seq<real>, sy: seq<real>, env: Env): (n: seq<real>)
    requires |sx| == 3 && |sy| == 3 && !Flat(sx, sy, env)
    ensures |n| == 3
  {
    seq(3, i requires 0 <= i < 3 => RawNY(sx, i) / EdgeLength(sx, sy, i, env))
  }

  /** The line function d = nx * (px - ox) + ny * (py - oy) of an edge through (ox, oy). */
  function EdgeAt(nx: real, ny: real, ox: real, oy: real, px: real, py: real): real
  {
    nx * (px - ox) + ny * (py - oy)
  }

  /** b[i]: edge i's line function at the vertex opposite it, vertex i + 2. */
  function Normalisers(sx: seq<real>, sy: seq<real>, nx: seq<real>, ny: seq<real>): (b: seq<real>)
    requires |sx| == 3 && |sy| == 3 && |nx| == 3 && |ny| == 3
    ensures |b| == 3
  {
    seq(3, i requires 0 <= i < 3 => EdgeAt(nx[i], ny[i], sx[i], sy[i], sx[(i + 2) % 3], sy[(i + 2) % 3]))
  }

  /** A set-up record the pixel loops can use. */
  predicate Usable(tr: Tri)
  {
    |tr.sx| == 3 && |tr.sy| == 3 && |tr.nx| == 3 && |tr.ny| == 3 && |tr.b| == 3 &&
    tr.b[0] != 0.0 && tr.b[1] != 0.0 && tr.b[2] != 0.0 &&
    0 <= tr.xmin && tr.xmax <= WIDTH && 0 <= tr.ymin && tr.ymax <= HEIGHT
  }

  /** The record's normals and normalisers are those of its screen vertices. */
  predicate EdgesOf(tr: Tri, env: Env)
  {
    |tr.sx| == 3 && |tr.sy| == 3 && !Flat(tr.sx, tr.sy, env) &&
    tr.nx == UnitNX(tr.sx, tr.sy, env) && tr.ny == UnitNY(tr.sx, tr.sy, env) &&
    tr.b == Normalisers(tr.sx, tr.sy, tr.nx, tr.ny)
  }

  /**
   * The set-up of one triangle: screen vertices, unit normals, normalisers
   * and the floor/ceil box clamped to the screen.  No record when the
   * triangle is degenerate on screen (a zero-length edge or a zero
   * normaliser): the divisions by l and by b would have no value.
   */
  function SetUp(t: Triangle, env: Env): (r: Option<Tri>)
    ensures r.Some? ==> Usable(r.value)
    ensures r.Some? ==> r.value.sx == ScreenXs(t, env) && r.value.sy == ScreenYs(t, env)
  {
    var sx, sy := ScreenXs(t, env), ScreenYs(t, env);
    if Flat(sx, sy, env) then None
    else
      var nx, ny := UnitNX(sx, sy, env), UnitNY(sx, sy, env);
      var b := Normalisers(sx, sy, nx, ny);
      if b[0] == 0.0 || b[1] == 0.0 || b[2] == 0.0 then None
      else
        Some(Record(sx, sy, nx, ny, b))
  }

  /** The record of a triangle with non-zero normalisers, its box clamped to the screen. */
  function Record(sx: seq<real>, sy: seq<real>, nx: seq<real>, ny: seq<real>, b: seq<real>): (tr: Tri)
    requires |sx| == 3 && |sy| == 3 && |nx| == 3 && |ny| == 3 && |b| == 3
    requires b[0] != 0.0 && b[1] != 0.0 && b[2] != 0.0
    ensures Usable(tr)
    ensures tr.sx == sx && tr.sy == sy && tr.nx == nx && tr.ny == ny && tr.b == b
  {
    Tri(sx, sy, nx, ny, b,
      MaxInt(0, Floor(Min(Min(sx[0], sx[1]), sx[2]))),
      MinInt(WIDTH, Ceil(Max(Max(sx[0], sx[1]), sx[2]))),
      MaxInt(0, Floor(Min(Min(sy[0], sy[1]), sy[2]))),
      MinInt(HEIGHT, Ceil(Max(Max(sy[0], sy[1]), sy[2]))))
  }

  /** A set-up record's normals and normalisers are those of its screen vertices. */
  lemma SetUpEdges(t: Triangle, env: Env)
    ensures SetUp(t, env).Some? ==> EdgesOf(SetUp(t, env).value, env)
  {
  }

  // ---------------------------------------------------------------- pixels

  /** Edge i's line function at the point (px, py). */
  function EdgeValue(tr: Tri, i: int, px: real, py: real): real
    requires Usable(tr) && 0 <= i < 3
  {
    EdgeAt(tr.nx[i], tr.ny[i], tr.sx[i], tr.sy[i], px, py)
  }

  /** The point lies in all three closed half-planes. */
  predicate Covered(tr: Tri, px: real, py: real)
    requires Usable(tr)
  {
    EdgeValue(tr, 0, px, py) >= 0.0 && EdgeValue(tr, 1, px, py) >= 0.0 && EdgeValue(tr, 2, px, py) >= 0.0
  }

  /**
   * Where every normaliser is positive, the three edge tests pass exactly
   * where the three weights are non-negative.
   */
  lemma CoveredByWeights(tr: Tri, px: real, py: real)
    requires Usable(tr)
    ensures tr.b[0] > 0.0 && tr.b[1] > 0.0 && tr.b[2] > 0.0 ==>
      (Covered(tr, px, py) <==> Weight(tr, 0, px, py) >= 0.0 && Weight(tr, 1, px, py) >= 0.0 && Weight(tr, 2, px, py) >= 0.0)
  {
  }

  /** Edge i's line function divided by its normaliser. */
  function Weight(tr: Tri, i: int, px: real, py: real): real
    requires Usable(tr) && 0 <= i < 3
  {
    EdgeValue(tr, i, px, py) / tr.b[i]
  }

  /** The one blend used for depth and every channel: vertex 0 by d2, vertex 1 by d3, vertex 2 by d1. */
  function Blend(a0: real, a1: real, a2: real, d1: real, d2: real, d3: real): real
  {
    a0 * d2 + a1 * d3 + a2 * d1
  }

  function PointDepth(tr: Tri, t: Triangle, px: real, py: real, env: Env): real
    requires Usable(tr)
  {
    Blend(env.recip(t.vertices.c0.z), env.recip(t.vertices.c1.z), env.recip(t.vertices.c2.z),
          Weight(tr, 0, px, py), Weight(tr, 1, px, py), Weight(tr, 2, px, py))
  }

  function PointColour(tr: Tri, t: Triangle, px: real, py: real): Colour
    requires Usable(tr)
  {
    var d1, d2, d3 := Weight(tr, 0, px, py), Weight(tr, 1, px, py), Weight(tr, 2, px, py);
    MakeColour(Blend(t.colors.c0.x, t.colors.c1.x, t.colors.c2.x, d1, d2, d3),
               Blend(t.colors.c0.y, t.colors.c1.y, t.colors.c2.y, d1, d2, d3),
               Blend(t.colors.c0.z, t.colors.c1.z, t.colors.c2.z, d1, d2, d3))
  }

  predicate OnScreen(x: int, y: int)
  {
    0 <= x < WIDTH && 0 <= y < HEIGHT
  }

  function ZIndex(env: Env, x: int, y: int): int
  {
    y * env.width + x
  }

  function PIndex(env: Env, x: int, y: int): int
  {
    x + env.pixelWidth * y
  }

  /** Both buffers hold a full WIDTH x HEIGHT screen at their strides. */
  predicate Fits(f: Frame, env: Env)
  {
    WIDTH <= env.width && WIDTH <= env.pixelWidth &&
    env.width * HEIGHT <= |f.z| && env.pixelWidth * HEIGHT <= |f.p|
  }

  /** Every on-screen pixel has its cell in both buffers. */
  lemma IndexInBounds(f: Frame, env: Env, x: int, y: int)
    requires Fits(f, env) && OnScreen(x, y)
    ensures 0 <= ZIndex(env, x, y) < |f.z| && 0 <= PIndex(env, x, y) < |f.p|
  {
    MulLe(env.width, y + 1, HEIGHT);
    MulLe(env.pixelWidth, y + 1, HEIGHT);
    MulNonNegative(env.width, y);
    MulNonNegative(env.pixelWidth, y);
    assert env.width * (y + 1) == y * env.width + env.width;
    assert env.pixelWidth * (y + 1) == env.pixelWidth * y + env.pixelWidth;
  }

  /** Depth-buffer cell k belongs to an on-screen pixel. */
  predicate ZCell(env: Env, k: int)
  {
    0 < env.width && 0 <= k && k % env.width < WIDTH && k / env.width < HEIGHT
  }

  /** Pixel-buffer cell k belongs to an on-screen pixel. */
  predicate PCell(env: Env, k: int)
  {
    0 < env.pixelWidth && 0 <= k && k % env.pixelWidth < WIDTH && k / env.pixelWidth < HEIGHT
  }

  /** An on-screen pixel's two cells decode back to it. */
  lemma CellsOfPixel(env: Env, x: int, y: int)
    requires WIDTH <= env.width && WIDTH <= env.pixelWidth && OnScreen(x, y)
    ensures ZIndex(env, x, y) / env.width == y && ZIndex(env, x, y) % env.width == x
    ensures PIndex(env, x, y) / env.pixelWidth == y && PIndex(env, x, y) % env.pixelWidth == x
    ensures ZCell(env, ZIndex(env, x, y)) && PCell(env, PIndex(env, x, y))
  {
    CellOf(env.width, x, y);
    assert ZIndex(env, x, y) == x + env.width * y;
    CellOf(env.pixelWidth, x, y);
    MulNonNegative(env.width, y);
    MulNonNegative(env.pixelWidth, y);
  }

  /** Distinct on-screen pixels have distinct cells in both buffers. */
  lemma CellsDistinct(env: Env, x: int, y: int, x': int, y': int)
    requires WIDTH <= env.width && WIDTH <= env.pixelWidth && OnScreen(x, y) && OnScreen(x', y')
    requires x != x' || y != y'
    ensures ZIndex(env, x, y) != ZIndex(env, x', y') && PIndex(env, x, y) != PIndex(env, x', y')
  {
    CellsOfPixel(env, x, y);
    CellsOfPixel(env, x', y');
  }

  /** r differs from f only in cells of on-screen pixels. */
  predicate KeepsOffScreen(f: Frame, r: Frame, env: Env)
  {
    |r.z| == |f.z| && |r.p| == |f.p| &&
    (forall k :: 0 <= k < |f.z| && !ZCell(env, k) ==> r.z[k] == f.z[k]) &&
    (forall k :: 0 <= k < |f.p| && !PCell(env, k) ==> r.p[k] == f.p[k])
  }

  /** No depth in r is below the depth f holds in the same cell. */
  predicate Nearer(f: Frame, r: Frame)
  {
    |r.z| == |f.z| && forall k :: 0 <= k < |f.z| ==> f.z[k] <= r.z[k]
  }

  /** The depth and colour stored for an on-screen pixel. */
  function DepthAt(f: Frame, env: Env, x: int, y: int): real
    requires Fits(f, env) && OnScreen(x, y)
  {
    IndexInBounds(f, env, x, y);
    f.z[ZIndex(env, x, y)]
  }

  function ColourAt(f: Frame, env: Env, x: int, y: int): Colour
    requires Fits(f, env) && OnScreen(x, y)
  {
    IndexInBounds(f, env, x, y);
    f.p[PIndex(env, x, y)]
  }

  /** Pixel (x, y) is written by the depth test: covered, and nearer than what is stored. */
  predicate Wins(f: Frame, tr: Tri, t: Triangle, x: int, y: int, env: Env)
    requires Fits(f, env) && OnScreen(x, y) && Usable(tr)
  {
    IndexInBounds(f, env, x, y);
    Covered(tr, x as real, y as real) && PointDepth(tr, t, x as real, y as real, env) > DepthAt(f, env, x, y)
  }

  /** What pixel (x, y) holds once the triangle has been tested there. */
  function DepthAfter(f: Frame, tr: Tri, t: Triangle, x: int, y: int, env: Env): real
    requires Fits(f, env) && OnScreen(x, y) && Usable(tr)
  {
    if Wins(f, tr, t, x, y, env) then PointDepth(tr, t, x as real, y as real, env) else DepthAt(f, env, x, y)
  }

  function ColourAfter(f: Frame, tr: Tri, t: Triangle, x: int, y: int, env: Env): Colour
    requires Fits(f, env) && OnScreen(x, y) && Usable(tr)
  {
    if Wins(f, tr, t, x, y, env) then PointColour(tr, t, x as real, y as real) else ColourAt(f, env, x, y)
  }

  /** One iteration of the x loop. */
  function PlotPixel(f: Frame, tr: Tri, t: Triangle, x: int, y: int, env: Env): (r: Frame)
    requires Fits(f, env) && OnScreen(x, y) && Usable(tr)
    ensures |r.z| == |f.z| && |r.p| == |f.p|
    ensures KeepsOffScreen(f, r, env) && Nearer(f, r)
  {
    IndexInBounds(f, env, x, y);
    CellsOfPixel(env, x, y);
    if Wins(f, tr, t, x, y, env) then
      Frame(f.z[ZIndex(env, x, y) := PointDepth(tr, t, x as real, y as real, env)],
            f.p[PIndex(env, x, y) := PointColour(tr, t, x as real, y as real)])
    else f
  }

  /** The x loop over [x0, x1) of row y. */
  function DrawSpan(f: Frame, tr: Tri, t: Triangle, y: int, x0: int, x1: int, env: Env): (r: Frame)
    requires Fits(f, env) && Usable(tr) && 0 <= y < HEIGHT && 0 <= x0 && x1 <= WIDTH
    ensures |r.z| == |f.z| && |r.p| == |f.p|
    decreases x1 - x0
  {
    if x1 <= x0 then f else PlotPixel(DrawSpan(f, tr, t, y, x0, x1 - 1, env), tr, t, x1 - 1, y, env)
  }

  /** The x loop never lowers a depth and leaves cells off the screen alone. */
  lemma {:induction false} SpanKeeps(f: Frame, tr: Tri, t: Triangle, y: int, x0: int, x1: int, env: Env)
    requires Fits(f, env) && Usable(tr) && 0 <= y < HEIGHT && 0 <= x0 && x1 <= WIDTH
    ensures KeepsOffScreen(f, DrawSpan(f, tr, t, y, x0, x1, env), env) && Nearer(f, DrawSpan(f, tr, t, y, x0, x1, env))
    decreases x1 - x0
  {
    if x0 < x1 {
      SpanKeeps(f, tr, t, y, x0, x1 - 1, env);
    }
  }

  /** The y loop over [y0, y1), each row spanning the box's columns. */
  function DrawRows(f: Frame, tr: Tri, t: Triangle, y0: int, y1: int, env: Env): (r: Frame)
    requires Fits(f, env) && Usable(tr) && 0 <= y0 && y1 <= HEIGHT
    ensures |r.z| == |f.z| && |r.p| == |f.p|
    decreases y1 - y0
  {
    if y1 <= y0 then f else DrawSpan(DrawRows(f, tr, t, y0, y1 - 1, env), tr, t, y1 - 1, tr.xmin, tr.xmax, env)
  }

  /** The y loop never lowers a depth and leaves cells off the screen alone. */
  lemma {:induction false} RowsKeeps(f: Frame, tr: Tri, t: Triangle, y0: int, y1: int, env: Env)
    requires Fits(f, env) && Usable(tr) && 0 <= y0 && y1 <= HEIGHT
    ensures KeepsOffScreen(f, DrawRows(f, tr, t, y0, y1, env), env) && Nearer(f, DrawRows(f, tr, t, y0, y1, env))
    decreases y1 - y0
  {
    if y0 < y1 {
      RowsKeeps(f, tr, t, y0, y1 - 1, env);
      SpanKeeps(DrawRows(f, tr, t, y0, y1 - 1, env), tr, t, y1 - 1, tr.xmin, tr.xmax, env);
    }
  }

  /** One iteration of the triangle loop: cull, set up, reject an empty box, fill. */
  function DrawTriangle(f: Frame, t: Triangle, env: Env): (r: Frame)
    requires Fits(f, env)
    ensures |r.z| == |f.z| && |r.p| == |f.p|
    ensures KeepsOffScreen(f, r, env) && Nearer(f, r)
  {
    if BackFacing(t) then f
    else match SetUp(t, env)
      case None => f
      case Some(tr) =>
        if tr.ymin > tr.ymax || tr.xmin > tr.xmax then f
        else
          RowsKeeps(f, tr, t, tr.ymin, tr.ymax, env);
          DrawRows(f, tr, t, tr.ymin, tr.ymax, env)
  }

  /** The triangles drawn one after another, in order. */
  function DrawTriangles(f: Frame, ts: seq<Triangle>, env: Env): (r: Frame)
    requires Fits(f, env)
    ensures |r.z| == |f.z| && |r.p| == |f.p|
    ensures KeepsOffScreen(f, r, env) && Nearer(f, r)
    decreases |ts|
  {
    if ts == [] then f else DrawTriangle(DrawTriangles(f, ts[..|ts| - 1], env), ts[|ts| - 1], env)
  }

  // ---------------------------------------------------------------- the loops

  /** The body of the x loop: the three edge tests, the depth test and the two writes. */
  method PlotAt(tr: Tri, t: Triangle, x: int, y: int, pbuf: Buffer, zbuf: array<real>, env: Env)
    requires Usable(tr) && OnScreen(x, y) && env.pixelWidth == pbuf.width
    requires Fits(Frame(zbuf[..], pbuf.data[..]), env)
    modifies zbuf, pbuf.data
    ensures Frame(zbuf[..], pbuf.data[..]) == PlotPixel(old(Frame(zbuf[..], pbuf.data[..])), tr, t, x, y, env)
  {
    ghost var f := Frame(zbuf[..], pbuf.data[..]);
    ghost var px, py := x as real, y as real;
    IndexInBounds(f, env, x, y);
    var d1 := tr.nx[0] * (x as real - tr.sx[0]) + tr.ny[0] * (y as real - tr.sy[0]);
    assert d1 == EdgeValue(tr, 0, px, py);
    if d1 >= 0.0 {
      var d2 := tr.nx[1] * (x as real - tr.sx[1]) + tr.ny[1] * (y as real - tr.sy[1]);
      assert d2 == EdgeValue(tr, 1, px, py);
      if d2 >= 0.0 {
        var d3 := tr.nx[2] * (x as real - tr.sx[2]) + tr.ny[2] * (y as real - tr.sy[2]);
        assert d3 == EdgeValue(tr, 2, px, py);
        if d3 >= 0.0 {
          assert Covered(tr, px, py);
          d1 := d1 / tr.b[0];
          d2 := d2 / tr.b[1];
          d3 := d3 / tr.b[2];
          assert d1 == Weight(tr, 0, px, py) && d2 == Weight(tr, 1, px, py) && d3 == Weight(tr, 2, px, py);
          var z := Blend(env.recip(t.vertices.c0.z), env.recip(t.vertices.c1.z), env.recip(t.vertices.c2.z), d1, d2, d3);
          assert z == PointDepth(tr, t, px, py, env);
          if z > zbuf[y * env.width + x] {
            assert Wins(f, tr, t, x, y, env);
            zbuf[y * env.width + x] := z;
            var r := Blend(t.colors.c0.x, t.colors.c1.x, t.colors.c2.x, d1, d2, d3);
            var g := Blend(t.colors.c0.y, t.colors.c1.y, t.colors.c2.y, d1, d2, d3);
            var b := Blend(t.colors.c0.z, t.colors.c1.z, t.colors.c2.z, d1, d2, d3);
            assert MakeColour(r, g, b) == PointColour(tr, t, px, py);
            SetPixel(pbuf, x, y, MakeColour(r, g, b));
          } else {
            assert !Wins(f, tr, t, x, y, env);
          }
        } else {
          assert !Covered(tr, px, py);
        }
      } else {
        assert !Covered(tr, px, py);
      }
    } else {
      assert !Covered(tr, px, py);
    }
  }

  /** The x loop of one row. */
  method FillSpan(tr: Tri, t: Triangle, y: int, pbuf: Buffer, zbuf: array<real>, env: Env)
    requires Usable(tr) && tr.xmin <= tr.xmax && 0 <= y < HEIGHT && env.pixelWidth == pbuf.width
    requires Fits(Frame(zbuf[..], pbuf.data[..]), env)
    modifies zbuf, pbuf.data
    ensures Frame(zbuf[..], pbuf.data[..]) == DrawSpan(old(Frame(zbuf[..], pbuf.data[..])), tr, t, y, tr.xmin, tr.xmax, env)
  {
    ghost var f0 := Frame(zbuf[..], pbuf.data[..]);
    var x := tr.xmin;
    while x < tr.xmax
      invariant tr.xmin <= x <= tr.xmax
      invariant Fits(Frame(zbuf[..], pbuf.data[..]), env)
      invariant Frame(zbuf[..], pbuf.data[..]) == DrawSpan(f0, tr, t, y, tr.xmin, x, env)
    {
      ghost var before := Frame(zbuf[..], pbuf.data[..]);
      PlotAt(tr, t, x, y, pbuf, zbuf, env);
      assert Frame(zbuf[..], pbuf.data[..]) == PlotPixel(before, tr, t, x, y, env);
      assert DrawSpan(f0, tr, t, y, tr.xmin, x + 1, env) ==
        PlotPixel(DrawSpan(f0, tr, t, y, tr.xmin, x, env), tr, t, x, y, env);
      x := x + 1;
    }
  }

  /** The y loop of one triangle. */
  method FillBox(tr: Tri, t: Triangle, pbuf: Buffer, zbuf: array<real>, env: Env)
    requires Usable(tr) && tr.xmin <= tr.xmax && tr.ymin <= tr.ymax && env.pixelWidth == pbuf.width
    requires Fits(Frame(zbuf[..], pbuf.data[..]), env)
    modifies zbuf, pbuf.data
    ensures Frame(zbuf[..], pbuf.data[..]) == DrawRows(old(Frame(zbuf[..], pbuf.data[..])), tr, t, tr.ymin, tr.ymax, env)
  {
    ghost var f0 := Frame(zbuf[..], pbuf.data[..]);
    var y := tr.ymin;
    while y < tr.ymax
      invariant tr.ymin <= y <= tr.ymax
      invariant Fits(Frame(zbuf[..], pbuf.data[..]), env)
      invariant Frame(zbuf[..], pbuf.data[..]) == DrawRows(f0, tr, t, tr.ymin, y, env)
    {
      ghost var before := Frame(zbuf[..], pbuf.data[..]);
      FillSpan(tr, t, y, pbuf, zbuf, env);
      assert Frame(zbuf[..], pbuf.data[..]) == DrawSpan(before, tr, t, y, tr.xmin, tr.xmax, env);
      assert DrawRows(f0, tr, t, tr.ymin, y + 1, env) ==
        DrawSpan(DrawRows(f0, tr, t, tr.ymin, y, env), tr, t, y, tr.xmin, tr.xmax, env);
      y := y + 1;
    }
  }

  /** A record built step by step as SetUp builds it is SetUp's record. */
  lemma SetUpFound(t: Triangle, env: Env, tr: Tri)
    requires tr.sx == ScreenXs(t, env) && tr.sy == ScreenYs(t, env) && !Flat(tr.sx, tr.sy, env)
    requires tr.nx == UnitNX(tr.sx, tr.sy, env) && tr.ny == UnitNY(tr.sx, tr.sy, env)
    requires tr.b == Normalisers(tr.sx, tr.sy, tr.nx, tr.ny) && tr.b[0] != 0.0 && tr.b[1] != 0.0 && tr.b[2] != 0.0
    requires tr.xmin == MaxInt(0, Floor(Min(Min(tr.sx[0], tr.sx[1]), tr.sx[2])))
    requires tr.xmax == MinInt(WIDTH, Ceil(Max(Max(tr.sx[0], tr.sx[1]), tr.sx[2])))
    requires tr.ymin == MaxInt(0, Floor(Min(Min(tr.sy[0], tr.sy[1]), tr.sy[2])))
    requires tr.ymax == MinInt(HEIGHT, Ceil(Max(Max(tr.sy[0], tr.sy[1]), tr.sy[2])))
    ensures SetUp(t, env) == Some(tr)
  {
  }

  /** No record for a triangle with a zero-length screen edge. */
  lemma SetUpFlat(t: Triangle, env: Env)
    requires Flat(ScreenXs(t, env), ScreenYs(t, env), env)
    ensures SetUp(t, env) == None
  {
  }

  /** No record for a triangle with a zero normaliser. */
  lemma SetUpDegenerate(t: Triangle, env: Env)
    requires !Flat(ScreenXs(t, env), ScreenYs(t, env), env)
    requires var sx, sy := ScreenXs(t, env), ScreenYs(t, env);
      var b := Normalisers(sx, sy, UnitNX(sx, sy, env), UnitNY(sx, sy, env));
      b[0] == 0.0 || b[1] == 0.0 || b[2] == 0.0
    ensures SetUp(t, env) == None
  {
  }

  /** The screen-coordinate loop. */
  method ScreenVertices(t: Triangle, env: Env) returns (sx: seq<real>, sy: seq<real>)
    ensures sx == ScreenXs(t, env) && sy == ScreenYs(t, env)
  {
    sx, sy := [0.0, 0.0, 0.0], [0.0, 0.0, 0.0];
    for i := 0 to 3
      invariant |sx| == 3 && |sy| == 3
      invariant forall k :: 0 <= k < i ==> sx[k] == ScreenXs(t, env)[k] && sy[k] == ScreenYs(t, env)[k]
    {
      sx := sx[i := ScreenX(t.vertices.At(i).x, env)];
      sy := sy[i := ScreenY(t.vertices.At(i).y, env)];
    }
  }

  /**
   * The normals loop: each edge turned a quarter and divided by its length.
   * `flat` reports a zero length, where the division has no value.
   */
  method EdgeNormals(sx: seq<real>, sy: seq<real>, env: Env) returns (nx: seq<real>, ny: seq<real>, flat: bool)
    requires |sx| == 3 && |sy| == 3
    ensures flat <==> Flat(sx, sy, env)
    ensures !flat ==> nx == UnitNX(sx, sy, env) && ny == UnitNY(sx, sy, env)
  {
    nx, ny := [0.0, 0.0, 0.0], [0.0, 0.0, 0.0];
    flat := false;
    for i := 0 to 3
      invariant |nx| == 3 && |ny| == 3
      invariant flat <==> exists k :: 0 <= k < i && EdgeLength(sx, sy, k, env) == 0.0
      invariant forall k :: 0 <= k < i && EdgeLength(sx, sy, k, env) != 0.0 ==>
        nx[k] == RawNX(sy, k) / EdgeLength(sx, sy, k, env) && ny[k] == RawNY(sx, k) / EdgeLength(sx, sy, k, env)
    {
      var nxi := -(sy[(i + 1) % 3] - sy[i]);
      var nyi := sx[(i + 1) % 3] - sx[i];
      var l := env.sqrt(Norm2(nxi, nyi));
      assert l == EdgeLength(sx, sy, i, env);
      if l == 0.0 {
        flat := true;
      } else {
        nx := nx[i := nxi / l];
        ny := ny[i := nyi / l];
      }
    }
    if !flat {
      assert nx == UnitNX(sx, sy, env);
      assert ny == UnitNY(sx, sy, env);
    }
  }

  /** The loop computing b: each edge's line function at the opposite vertex. */
  method EdgeNormalisers(sx: seq<real>, sy: seq<real>, nx: seq<real>, ny: seq<real>) returns (b: seq<real>)
    requires |sx| == 3 && |sy| == 3 && |nx| == 3 && |ny| == 3
    ensures b == Normalisers(sx, sy, nx, ny)
  {
    b := [0.0, 0.0, 0.0];
    for i := 0 to 3
      invariant |b| == 3
      invariant forall k :: 0 <= k < i ==> b[k] == Normalisers(sx, sy, nx, ny)[k]
    {
      b := b[i := nx[i] * (sx[(i + 2) % 3] - sx[i]) + ny[i] * (sy[(i + 2) % 3] - sy[i])];
    }
  }

  /** The body of the triangle loop, for the triangle just fetched. */
  method RasterizeTriangle(t: Triangle, pbuf: Buffer, zbuf: array<real>, env: Env)
    requires env.pixelWidth == pbuf.width
    requires Fits(Frame(zbuf[..], pbuf.data[..]), env)
    modifies zbuf, pbuf.data
    ensures Frame(zbuf[..], pbuf.data[..]) == DrawTriangle(old(Frame(zbuf[..], pbuf.data[..])), t, env)
  {
    ghost var f0 := Frame(zbuf[..], pbuf.data[..]);
    var v := t.vertices;
    if (v.c1.x - v.c0.x) * (v.c2.y - v.c0.y) - (v.c2.x - v.c0.x) * (v.c1.y - v.c0.y) < 0.0 {
      assert BackFacing(t);
      return;
    }
    assert !BackFacing(t);
    var sx, sy := ScreenVertices(t, env);
    var nx, ny, flat := EdgeNormals(sx, sy, env);
    if flat {
      SetUpFlat(t, env);
      return;
    }
    var b := EdgeNormalisers(sx, sy, nx, ny);
    if b[0] == 0.0 || b[1] == 0.0 || b[2] == 0.0 {
      SetUpDegenerate(t, env);
      return;
    }

    var xmin := Floor(Min(Min(sx[0], sx[1]), sx[2]));
    var ymin := Floor(Min(Min(sy[0], sy[1]), sy[2]));
    var xmax := Ceil(Max(Max(sx[0], sx[1]), sx[2]));
    var ymax := Ceil(Max(Max(sy[0], sy[1]), sy[2]));
    xmin := MaxInt(0, xmin);
    xmax := MinInt(WIDTH, xmax);
    ymin := MaxInt(0, ymin);
    ymax := MinInt(HEIGHT, ymax);
    var tr := Tri(sx, sy, nx, ny, b, xmin, xmax, ymin, ymax);
    SetUpFound(t, env, tr);
    if ymin > ymax || xmin > xmax {
      assert DrawTriangle(f0, t, env) == f0;
      return;
    }
    assert DrawTriangle(f0, t, env) == DrawRows(f0, tr, t, ymin, ymax, env);
    FillBox(tr, t, pbuf, zbuf, env);
  }

  /** Drawing the triangles start .. k of `all` is drawing start .. k - 1 and then triangle k. */
  lemma DrawOneMore(f: Frame, all: seq<Triangle>, start: int, k: int, env: Env)
    requires Fits(f, env) && 0 <= start <= k < |all|
    ensures DrawTriangles(f, all[start..k + 1], env) == DrawTriangle(DrawTriangles(f, all[start..k], env), all[k], env)
  {
    var ts := all[start..k + 1];
    assert ts != [] && |ts| - 1 == k - start;
    assert ts[..|ts| - 1] == all[start..k];
    assert ts[|ts| - 1] == all[k];
  }

  /**
   * rasterize: draws the triangles left in the model, in cursor order,
   * and leaves the cursor at the end.
   */
  method Rasterize(m: Model, pbuf: Buffer, zbuf: array<real>, env: Env)
    requires m.Valid()
    requires env.pixelWidth == pbuf.width
    requires Fits(Frame(zbuf[..], pbuf.data[..]), env)
    modifies m`curTriangle, zbuf, pbuf.data
    ensures m.Valid() && m.curTriangle == m.triangleCount
    ensures Frame(zbuf[..], pbuf.data[..]) ==
      DrawTriangles(old(Frame(zbuf[..], pbuf.data[..])), old(m.triangles[m.curTriangle..]), env)
  {
    ghost var f0 := Frame(zbuf[..], pbuf.data[..]);
    ghost var start := m.curTriangle;
    ghost var all := m.triangles[..];
    ghost var rest := m.triangles[m.curTriangle..];
    assert all[start..] == rest;
    while m.TrianglesLeft()
      invariant m.Valid() && start <= m.curTriangle <= m.triangleCount
      invariant m.triangles[..] == all
      invariant Fits(Frame(zbuf[..], pbuf.data[..]), env)
      invariant Frame(zbuf[..], pbuf.data[..]) == DrawTriangles(f0, all[start..m.curTriangle], env)
      decreases m.triangleCount - m.curTriangle
    {
      var t := m.NextTriangle();
      RasterizeTriangle(t, pbuf, zbuf, env);
      DrawOneMore(f0, all, start, m.curTriangle - 1, env);
    }
    assert m.curTriangle == |all|;
    assert all[start..m.curTriangle] == rest;
  }

  // ---------------------------------------------------------------- what a frame holds

  /** One depth test leaves its own pixel as DepthAfter / ColourAfter say. */
  lemma PlotPixelOwn(f: Frame, tr: Tri, t: Triangle, x: int, y: int, env: Env)
    requires Fits(f, env) && Usable(tr) && OnScreen(x, y)
    ensures var r := PlotPixel(f, tr, t, x, y, env);
      Fits(r, env) &&
      DepthAt(r, env, x, y) == DepthAfter(f, tr, t, x, y, env) && ColourAt(r, env, x, y) == ColourAfter(f, tr, t, x, y, env)
  {
    var r := PlotPixel(f, tr, t, x, y, env);
    IndexInBounds(f, env, x, y);
    var zk, pk := ZIndex(env, x, y), PIndex(env, x, y);
    if Wins(f, tr, t, x, y, env) {
      assert r.z == f.z[zk := PointDepth(tr, t, x as real, y as real, env)];
      assert r.p == f.p[pk := PointColour(tr, t, x as real, y as real)];
    } else {
      assert r == f;
    }
  }

  /** One depth test leaves every other pixel as it was. */
  lemma PlotPixelElsewhere(f: Frame, tr: Tri, t: Triangle, x: int, y: int, env: Env, x': int, y': int)
    requires Fits(f, env) && Usable(tr) && OnScreen(x, y) && OnScreen(x', y')
    requires x' != x || y' != y
    ensures var r := PlotPixel(f, tr, t, x, y, env);
      Fits(r, env) &&
      DepthAt(r, env, x', y') == DepthAt(f, env, x', y') && ColourAt(r, env, x', y') == ColourAt(f, env, x', y')
  {
    var r := PlotPixel(f, tr, t, x, y, env);
    IndexInBounds(f, env, x, y);
    IndexInBounds(f, env, x', y');
    var zk, pk := ZIndex(env, x, y), PIndex(env, x, y);
    if Wins(f, tr, t, x, y, env) {
      assert r.z == f.z[zk := PointDepth(tr, t, x as real, y as real, env)];
      assert r.p == f.p[pk := PointColour(tr, t, x as real, y as real)];
    } else {
      assert r == f;
    }
    CellsDistinct(env, x, y, x', y');
  }

  /** What a depth test leaves at a pixel depends only on what the pixel held before. */
  lemma AfterOfPixel(f: Frame, g: Frame, tr: Tri, t: Triangle, x: int, y: int, env: Env)
    requires Fits(f, env) && Fits(g, env) && OnScreen(x, y) && Usable(tr)
    requires DepthAt(f, env, x, y) == DepthAt(g, env, x, y) && ColourAt(f, env, x, y) == ColourAt(g, env, x, y)
    ensures DepthAfter(f, tr, t, x, y, env) == DepthAfter(g, tr, t, x, y, env)
    ensures ColourAfter(f, tr, t, x, y, env) == ColourAfter(g, tr, t, x, y, env)
  {
  }

  /** After the x loop of row y over [x0, x1): a pixel outside the span is untouched. */
  lemma {:induction false} SpanOutside(f: Frame, tr: Tri, t: Triangle, y: int, x0: int, x1: int, env: Env, x': int, y': int)
    requires Fits(f, env) && Usable(tr) && 0 <= y < HEIGHT && 0 <= x0 && x1 <= WIDTH && OnScreen(x', y')
    requires !(y' == y && x0 <= x' < x1)
    ensures var r := DrawSpan(f, tr, t, y, x0, x1, env);
      Fits(r, env) &&
      DepthAt(r, env, x', y') == DepthAt(f, env, x', y') && ColourAt(r, env, x', y') == ColourAt(f, env, x', y')
    decreases x1 - x0
  {
    if x0 < x1 {
      var s := DrawSpan(f, tr, t, y, x0, x1 - 1, env);
      SpanOutside(f, tr, t, y, x0, x1 - 1, env, x', y');
      PlotPixelElsewhere(s, tr, t, x1 - 1, y, env, x', y');
    }
  }

  /** After the x loop of row y over [x0, x1): each pixel of the span has been tested exactly once. */
  lemma {:induction false} SpanInside(f: Frame, tr: Tri, t: Triangle, y: int, x0: int, x1: int, env: Env, x': int, y': int)
    requires Fits(f, env) && Usable(tr) && 0 <= y < HEIGHT && 0 <= x0 && x1 <= WIDTH && OnScreen(x', y')
    requires y' == y && x0 <= x' < x1
    ensures var r := DrawSpan(f, tr, t, y, x0, x1, env);
      Fits(r, env) &&
      DepthAt(r, env, x', y') == DepthAfter(f, tr, t, x', y', env) && ColourAt(r, env, x', y') == ColourAfter(f, tr, t, x', y', env)
    decreases x1 - x0
  {
    var s := DrawSpan(f, tr, t, y, x0, x1 - 1, env);
    if x' == x1 - 1 {
      SpanOutside(f, tr, t, y, x0, x1 - 1, env, x', y');
      PlotPixelOwn(s, tr, t, x', y', env);
      AfterOfPixel(s, f, tr, t, x', y', env);
    } else {
      SpanInside(f, tr, t, y, x0, x1 - 1, env, x', y');
      PlotPixelElsewhere(s, tr, t, x1 - 1, y, env, x', y');
    }
  }

  /** Pixel (x, y) lies in the record's clipped box. */
  predicate InBox(tr: Tri, x: int, y: int)
  {
    tr.xmin <= x < tr.xmax && tr.ymin <= y < tr.ymax
  }

  /** After the y loop over [y0, y1): a pixel outside those rows of the box is untouched. */
  lemma {:induction false} RowsOutside(f: Frame, tr: Tri, t: Triangle, y0: int, y1: int, env: Env, x': int, y': int)
    requires Fits(f, env) && Usable(tr) && 0 <= y0 && y1 <= HEIGHT && OnScreen(x', y')
    requires !(y0 <= y' < y1 && tr.xmin <= x' < tr.xmax)
    ensures var r := DrawRows(f, tr, t, y0, y1, env);
      Fits(r, env) &&
      DepthAt(r, env, x', y') == DepthAt(f, env, x', y') && ColourAt(r, env, x', y') == ColourAt(f, env, x', y')
    decreases y1 - y0
  {
    if y0 < y1 {
      var s := DrawRows(f, tr, t, y0, y1 - 1, env);
      RowsOutside(f, tr, t, y0, y1 - 1, env, x', y');
      SpanOutside(s, tr, t, y1 - 1, tr.xmin, tr.xmax, env, x', y');
    }
  }

  /** The last row of the y loop over [y0, y1): its pixels in the box are tested once, on what the earlier rows left. */
  lemma RowsLast(f: Frame, tr: Tri, t: Triangle, y0: int, y1: int, env: Env, x': int, y': int)
    requires Fits(f, env) && Usable(tr) && 0 <= y0 < y1 && y1 <= HEIGHT && OnScreen(x', y')
    requires y' == y1 - 1 && tr.xmin <= x' < tr.xmax
    ensures var r := DrawRows(f, tr, t, y0, y1, env);
      Fits(r, env) &&
      DepthAt(r, env, x', y') == DepthAfter(f, tr, t, x', y', env) && ColourAt(r, env, x', y') == ColourAfter(f, tr, t, x', y', env)
  {
    var s := DrawRows(f, tr, t, y0, y1 - 1, env);
    RowsOutside(f, tr, t, y0, y1 - 1, env, x', y');
    SpanInside(s, tr, t, y1 - 1, tr.xmin, tr.xmax, env, x', y');
    AfterOfPixel(s, f, tr, t, x', y', env);
  }

  /** After the y loop over [y0, y1): a pixel of the box in those rows has been tested exactly once. */
  lemma {:induction false} RowsInside(f: Frame, tr: Tri, t: Triangle, y0: int, y1: int, env: Env, x': int, y': int)
    requires Fits(f, env) && Usable(tr) && 0 <= y0 && y1 <= HEIGHT && OnScreen(x', y')
    requires y0 <= y' < y1 && tr.xmin <= x' < tr.xmax
    ensures var r := DrawRows(f, tr, t, y0, y1, env);
      Fits(r, env) &&
      DepthAt(r, env, x', y') == DepthAfter(f, tr, t, x', y', env) && ColourAt(r, env, x', y') == ColourAfter(f, tr, t, x', y', env)
    decreases y1 - y0
  {
    if y' == y1 - 1 {
      RowsLast(f, tr, t, y0, y1, env, x', y');
    } else {
      var s := DrawRows(f, tr, t, y0, y1 - 1, env);
      RowsInside(f, tr, t, y0, y1 - 1, env, x', y');
      SpanOutside(s, tr, t, y1 - 1, tr.xmin, tr.xmax, env, x', y');
    }
  }

  /**
   * The triangle reaches pixel (x, y): it faces the viewer, has a set-up
   * record, (x, y) is in its box, the pixel centre is covered and its depth
   * beats the stored one.
   */
  predicate Hits(f: Frame, t: Triangle, x: int, y: int, env: Env)
    requires Fits(f, env) && OnScreen(x, y)
  {
    !BackFacing(t) && SetUp(t, env).Some? && InBox(SetUp(t, env).value, x, y) &&
    Wins(f, SetUp(t, env).value, t, x, y, env)
  }

  /** One triangle, pixel by pixel: a hit pixel takes its interpolated depth and colour, every other pixel is unchanged. */
  lemma DrawTriangleAt(f: Frame, t: Triangle, env: Env, x: int, y: int)
    requires Fits(f, env) && OnScreen(x, y)
    ensures var r := DrawTriangle(f, t, env);
      Fits(r, env) &&
      (Hits(f, t, x, y, env) ==>
        DepthAt(r, env, x, y) == PointDepth(SetUp(t, env).value, t, x as real, y as real, env) &&
        ColourAt(r, env, x, y) == PointColour(SetUp(t, env).value, t, x as real, y as real) &&
        DepthAt(r, env, x, y) > DepthAt(f, env, x, y)) &&
      (!Hits(f, t, x, y, env) ==>
        DepthAt(r, env, x, y) == DepthAt(f, env, x, y) && ColourAt(r, env, x, y) == ColourAt(f, env, x, y))
  {
    if !BackFacing(t) && SetUp(t, env).Some? {
      var tr := SetUp(t, env).value;
      if !(tr.ymin > tr.ymax || tr.xmin > tr.xmax) {
        if InBox(tr, x, y) {
          RowsInside(f, tr, t, tr.ymin, tr.ymax, env, x, y);
        } else {
          RowsOutside(f, tr, t, tr.ymin, tr.ymax, env, x, y);
        }
      }
    }
  }

  /**
   * Over a sequence of triangles, a pixel whose colour changed has strictly
   * gained depth: colour is only ever written by a winning depth test.
   */
  lemma {:induction false} RecolouredMeansNearer(f: Frame, ts: seq<Triangle>, env: Env, x: int, y: int)
    requires Fits(f, env) && OnScreen(x, y)
    ensures var r := DrawTriangles(f, ts, env);
      Fits(r, env) && DepthAt(f, env, x, y) <= DepthAt(r, env, x, y) &&
      (ColourAt(r, env, x, y) != ColourAt(f, env, x, y) ==> DepthAt(f, env, x, y) < DepthAt(r, env, x, y))
    decreases |ts|
  {
    if ts != [] {
      var s := DrawTriangles(f, ts[..|ts| - 1], env);
      RecolouredMeansNearer(f, ts[..|ts| - 1], env, x, y);
      DrawTriangleAt(s, ts[|ts| - 1], env, x, y);
    }
  }

  /** The unit normal of edge i, which runs from vertex i to vertex k = i + 1 (mod 3). */
  lemma UnitNormalEntry(sx: seq<real>, sy: seq<real>, env: Env, i: int, k: int)
    requires |sx| == 3 && |sy| == 3 && !Flat(sx, sy, env) && 0 <= i < 3 && k == (i + 1) % 3
    ensures EdgeLength(sx, sy, i, env) != 0.0
    ensures UnitNX(sx, sy, env)[i] == -(sy[k] - sy[i]) / EdgeLength(sx, sy, i, env)
    ensures UnitNY(sx, sy, env)[i] == (sx[k] - sx[i]) / EdgeLength(sx, sy, i, env)
  {
  }

  /** The normaliser of edge i is measured at vertex k = i + 2 (mod 3). */
  lemma NormaliserEntry(sx: seq<real>, sy: seq<real>, nx: seq<real>, ny: seq<real>, i: int, k: int)
    requires |sx| == 3 && |sy| == 3 && |nx| == 3 && |ny| == 3 && 0 <= i < 3 && k == (i + 2) % 3
    ensures Normalisers(sx, sy, nx, ny)[i] == EdgeAt(nx[i], ny[i], sx[i], sy[i], sx[k], sy[k])
  {
  }

  /** The weight of edge i is 0 at its own origin. */
  lemma OriginWeight(tr: Tri, i: int)
    requires Usable(tr) && 0 <= i < 3
    ensures Weight(tr, i, tr.sx[i], tr.sy[i]) == 0.0
  {
  }

  /** The weight of edge i is 1 at the point its normaliser was measured at. */
  lemma MeasuredWeight(tr: Tri, i: int, k: int)
    requires Usable(tr) && 0 <= i < 3 && 0 <= k < 3
    requires tr.b[i] == EdgeAt(tr.nx[i], tr.ny[i], tr.sx[i], tr.sy[i], tr.sx[k], tr.sy[k])
    ensures Weight(tr, i, tr.sx[k], tr.sy[k]) == 1.0
  {
  }

  /** The weight of edge i is 0 at its end point k: the normal is perpendicular to the edge. */
  lemma EndWeight(tr: Tri, i: int, k: int, l: real)
    requires Usable(tr) && 0 <= i < 3 && 0 <= k < 3 && l != 0.0
    requires tr.nx[i] == -(tr.sy[k] - tr.sy[i]) / l && tr.ny[i] == (tr.sx[k] - tr.sx[i]) / l
    ensures Weight(tr, i, tr.sx[k], tr.sy[k]) == 0.0
  {
    var ax, ay, bx, yb := tr.sx[i], tr.sy[i], tr.sx[k], tr.sy[k];
    assert EdgeAt(-(yb - ay) / l, (bx - ax) / l, ax, ay, bx, yb) == 0.0;
  }

  /**
   * At screen vertex j the weight of edge j (which starts there) and of
   * edge i (which ends there) is 0, and that of edge o (measured there) is 1.
   */
  lemma VertexWeights(tr: Tri, j: int, o: int, i: int, l: real)
    requires Usable(tr) && 0 <= j < 3 && 0 <= o < 3 && 0 <= i < 3 && l != 0.0
    requires tr.b[o] == EdgeAt(tr.nx[o], tr.ny[o], tr.sx[o], tr.sy[o], tr.sx[j], tr.sy[j])
    requires tr.nx[i] == -(tr.sy[j] - tr.sy[i]) / l && tr.ny[i] == (tr.sx[j] - tr.sx[i]) / l
    ensures Weight(tr, j, tr.sx[j], tr.sy[j]) == 0.0
    ensures Weight(tr, o, tr.sx[j], tr.sy[j]) == 1.0
    ensures Weight(tr, i, tr.sx[j], tr.sy[j]) == 0.0
  {
    OriginWeight(tr, j);
    MeasuredWeight(tr, o, j);
    EndWeight(tr, i, j, l);
  }

  /** The blend picks out one corner's value when its weight is 1 and the others are 0. */
  lemma BlendPicks(a0: real, a1: real, a2: real, d1: real, d2: real, d3: real)
    ensures d1 == 0.0 && d2 == 1.0 && d3 == 0.0 ==> Blend(a0, a1, a2, d1, d2, d3) == a0
    ensures d1 == 0.0 && d2 == 0.0 && d3 == 1.0 ==> Blend(a0, a1, a2, d1, d2, d3) == a1
    ensures d1 == 1.0 && d2 == 0.0 && d3 == 0.0 ==> Blend(a0, a1, a2, d1, d2, d3) == a2
  {
  }

  /** The blends of one point: depth from the three 1/z, colour from the three corner colours. */
  lemma PointBlends(tr: Tri, t: Triangle, px: real, py: real, env: Env)
    requires Usable(tr)
    ensures var d1, d2, d3 := Weight(tr, 0, px, py), Weight(tr, 1, px, py), Weight(tr, 2, px, py);
      var v, c := t.vertices, t.colors;
      (d1 == 0.0 && d2 == 1.0 && d3 == 0.0 ==>
        PointDepth(tr, t, px, py, env) == env.recip(v.c0.z) && PointColour(tr, t, px, py) == MakeColour(c.c0.x, c.c0.y, c.c0.z)) &&
      (d1 == 0.0 && d2 == 0.0 && d3 == 1.0 ==>
        PointDepth(tr, t, px, py, env) == env.recip(v.c1.z) && PointColour(tr, t, px, py) == MakeColour(c.c1.x, c.c1.y, c.c1.z)) &&
      (d1 == 1.0 && d2 == 0.0 && d3 == 0.0 ==>
        PointDepth(tr, t, px, py, env) == env.recip(v.c2.z) && PointColour(tr, t, px, py) == MakeColour(c.c2.x, c.c2.y, c.c2.z))
  {
    var d1, d2, d3 := Weight(tr, 0, px, py), Weight(tr, 1, px, py), Weight(tr, 2, px, py);
    var v, c := t.vertices, t.colors;
    BlendPicks(env.recip(v.c0.z), env.recip(v.c1.z), env.recip(v.c2.z), d1, d2, d3);
    BlendPicks(c.c0.x, c.c1.x, c.c2.x, d1, d2, d3);
    BlendPicks(c.c0.y, c.c1.y, c.c2.y, d1, d2, d3);
    BlendPicks(c.c0.z, c.c1.z, c.c2.z, d1, d2, d3);
  }

  /**
   * The facts about vertex j of a record that fix its three weights there:
   * edge i ends at j (its normal is the turned edge divided by l) and edge o
   * was measured at j.
   */
  predicate MeetsAt(tr: Tri, j: int, i: int, o: int, l: real)
    requires |tr.sx| == 3 && |tr.sy| == 3 && |tr.nx| == 3 && |tr.ny| == 3 && |tr.b| == 3
    requires 0 <= j < 3 && 0 <= i < 3 && 0 <= o < 3
  {
    l != 0.0 &&
    tr.nx[i] == -(tr.sy[j] - tr.sy[i]) / l && tr.ny[i] == (tr.sx[j] - tr.sx[i]) / l &&
    tr.b[o] == EdgeAt(tr.nx[o], tr.ny[o], tr.sx[o], tr.sy[o], tr.sx[j], tr.sy[j])
  }

  /**
   * A record whose normals and normalisers are those of its vertices meets
   * vertex j that way, with i the edge ending at j and o the edge measured at j.
   */
  lemma EdgesMeet(tr: Tri, env: Env, j: int, i: int, o: int)
    requires EdgesOf(tr, env) && |tr.nx| == 3 && |tr.ny| == 3 && |tr.b| == 3
    requires 0 <= j < 3 && 0 <= i < 3 && 0 <= o < 3 && (i + 1) % 3 == j && (o + 2) % 3 == j
    ensures MeetsAt(tr, j, i, o, EdgeLength(tr.sx, tr.sy, i, env))
  {
    UnitNormalEntry(tr.sx, tr.sy, env, i, j);
    NormaliserEntry(tr.sx, tr.sy, tr.nx, tr.ny, o, j);
  }

  /**
   * Interpolation reproduces the corners: at screen vertex j the depth is
   * vertex j's own 1/z and the colour its own corner colour.
   */
  lemma CornerValuesOf(tr: Tri, t: Triangle, env: Env, j: int, l: real)
    requires Usable(tr) && 0 <= j < 3 && MeetsAt(tr, j, (j + 2) % 3, (j + 1) % 3, l)
    ensures PointDepth(tr, t, tr.sx[j], tr.sy[j], env) == env.recip(t.vertices.At(j).z)
    ensures PointColour(tr, t, tr.sx[j], tr.sy[j]) ==
      MakeColour(t.colors.At(j).x, t.colors.At(j).y, t.colors.At(j).z)
  {
    VertexWeights(tr, j, (j + 1) % 3, (j + 2) % 3, l);
    PointBlends(tr, t, tr.sx[j], tr.sy[j], env);
  }

  /** Around the triangle: the edge ending at vertex j is j + 2 and the one after it is j + 1 (mod 3). */
  lemma Cyclic(j: int, i: int, o: int)
    requires 0 <= j < 3 && i == (j + 2) % 3 && o == (j + 1) % 3
    ensures 0 <= i < 3 && 0 <= o < 3 && (i + 1) % 3 == j && (o + 2) % 3 == j
  {
  }

  /**
   * The vertex-to-weight correspondence at the corners: at screen vertex j
   * of a set-up record (SetUpEdges gives EdgesOf for the record SetUp
   * builds), the interpolated depth is vertex j's own 1/z and the
   * interpolated colour its own corner colour.
   */
  lemma CornerValues(tr: Tri, t: Triangle, env: Env, j: int)
    requires Usable(tr) && EdgesOf(tr, env) && 0 <= j < 3
    ensures PointDepth(tr, t, tr.sx[j], tr.sy[j], env) == env.recip(t.vertices.At(j).z)
    ensures PointColour(tr, t, tr.sx[j], tr.sy[j]) ==
      MakeColour(t.colors.At(j).x, t.colors.At(j).y, t.colors.At(j).z)
  {
    var i, o := (j + 2) % 3, (j + 1) % 3;
    Cyclic(j, i, o);
    EdgesMeet(tr, env, j, i, o);
    CornerValuesOf(tr, t, env, j, EdgeLength(tr.sx, tr.sy, i, env));
  }

  /** A vertex whose edge values fix its weights at 0, 1 and 0 passes the edge tests when the normalisers are positive. */
  lemma CoveredAtMeeting(tr: Tri, j: int, l: real)
    requires Usable(tr) && 0 <= j < 3 && MeetsAt(tr, j, (j + 2) % 3, (j + 1) % 3, l)
    requires tr.b[0] > 0.0 && tr.b[1] > 0.0 && tr.b[2] > 0.0
    ensures Covered(tr, tr.sx[j], tr.sy[j])
  {
    VertexWeights(tr, j, (j + 1) % 3, (j + 2) % 3, l);
    CoveredByWeights(tr, tr.sx[j], tr.sy[j]);
  }

  /**
   * Each screen vertex of a record set up from its own edges, with positive
   * normalisers, passes the three edge tests: there one weight is 1 and
   * the other two are 0.
   */
  lemma CornersCovered(tr: Tri, env: Env, j: int)
    requires Usable(tr) && EdgesOf(tr, env) && 0 <= j < 3
    requires tr.b[0] > 0.0 && tr.b[1] > 0.0 && tr.b[2] > 0.0
    ensures Covered(tr, tr.sx[j], tr.sy[j])
  {
    var i, o := (j + 2) % 3, (j + 1) % 3;
    Cyclic(j, i, o);
    EdgesMeet(tr, env, j, i, o);
    CoveredAtMeeting(tr, j, EdgeLength(tr.sx, tr.sy, i, env));
  }
}
