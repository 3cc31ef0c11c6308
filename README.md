# A verified model of a small software rasterizer

The system is a C/C++ software renderer. It keeps a triangle mesh as a flat
array of 18 floats per triangle: three (position, normal) pairs. Next to the
mesh sits an array of triangle records with stable IDs, and a cursor walks
that array. A transform pass writes projected vertices and transformed
normals into the records. A shading pass writes a diffuse grey per corner.
The scan converter then drains the cursor. For each triangle it:

- culls the back faces;
- sets up three edge functions in screen space;
- clamps a bounding box to the 320 x 240 screen;
- fills the covered pixels that win a strict greater-than depth test.

It writes a depth buffer and a pixel buffer together. The pixel buffer is a
`width`/`firstLine`/`size` view of a flat colour array, and it can be split
into horizontal bands, cleared, tone-mapped and exported as bytes. Colours
are four reals (r, g, b, a) with a family of channel operations.

The Dafny modules follow the source files:

- `Scalars` (scalars.dfy) holds the vectors and the C rounding and integer
  division the source relies on.
- `Colours` (colours.dfy) models colours.c as value functions. An operation
  on a `colour *` becomes a function from the old value to the new one.
- `Buffers` (buffers.dfy) models buffers.c: the buffer record over an
  `array<Colour>`, and the row loops as methods over that array.
- `Matrices` (matrices.dfy) holds the matrix operations as function-valued
  parameters, because their implementations are not part of this model.
- `Triangles` (triangles.dfy) holds the triangle record, the mesh layout and
  the transform and shading passes as loops over the record array. Each loop
  is proved equal to a function that specifies it.
- `Models` (models.dfy) models models.c as a class with the mesh,
  triangleCount, curTriangle and triangles fields.
- `TriangleFactories` (trianglefactory.dfy) models the C++ `TriangleFactory`
  as a class, including the rotation and tilt accumulators and `compareZ`.
- `Rasterizer` (rasterizer.dfy) models rasterizer.c. The nested pixel loops
  are methods over the two arrays. Each is proved equal to a fold over pixels,
  rows and triangles. Lemmas then read off the folds pixel by pixel:
  - which pixels a triangle touches;
  - what depth and colour it leaves there;
  - that the depth never drops;
  - that a colour changes only where the depth rose;
  - that the interpolation returns each vertex's own depth and colour at
    that vertex.

Floats are modelled as `real`. The following are parameters: square root,
`pow`/`exp`, the float reciprocal `1.0f / z` and the matrix functions. The
rasterizer's `Env` carries the window width and height, the pixel buffer's
stride, `sqrt` and `recip`.

## Model

| member | source | states |
|---|---|---|
| Scalars.CDiv | buffers.c:31 | C `/` on ints truncates toward zero: it equals Euclidean division on non-negative operands, is 0 when the dividend is smaller in magnitude, and is non-negative when the signs agree |
| Scalars.Trunc | buffers.c:62-63 | the `(int)` cast of a float: the integer part, rounded toward zero from either side |
| Scalars.Floor | rasterizer.c:96-97 | `floor`: the greatest integer not above v |
| Scalars.Ceil | rasterizer.c:98-99 | `ceil`: the least integer not below v |
| Colours.MakeColourA | colours.c:22-29 | stores r, g, b and a exactly as given |
| Colours.MakeColour | colours.c:13-20 | stores r, g, b and sets alpha to 1 |
| Colours.Grey | colours.c:31-38 | r = g = b = v, alpha 1 |
| Colours.Clamp01 | colours.c:40-44 | each channel's clamp lies in [0, 1], equals the channel when already there, and is 1 above and 0 below |
| Colours.Clip | colours.c:40-44 | every rgb channel ends in [0, 1], alpha is untouched, and an in-range colour is unchanged |
| Colours.ClipIdempotent | colours.c:40-44 | clipping a clipped colour changes nothing |
| Colours.Clipped | colours.c:46-50 | the target gets the clamped rgb of c and keeps its own alpha; an in-range c passes through unchanged |
| Colours.MakePositive | colours.c:52-56 | caps each channel at 1 and leaves channels at or below 1, including negative ones, as they are; alpha untouched |
| Colours.ApplyGamma | colours.c:58-62 | each rgb channel becomes pow(channel, gamma); alpha untouched |
| Colours.Brighten | colours.c:64-68 | adds f to each rgb channel; alpha untouched |
| Colours.Brightened | colours.c:70-74 | the target gets c brightened by f and keeps its own alpha |
| Colours.Darken | colours.c:76-80 | darkening by f is undone by brightening by f; alpha untouched |
| Colours.DarkenUndoesBrighten | colours.c:64-80 | brightening by f and then darkening by f gives back the same colour |
| Colours.Darkened | colours.c:82-86 | the target gets c darkened by f and keeps its own alpha |
| Colours.Scale | colours.c:88-92 | multiplies each rgb channel by f; alpha untouched |
| Colours.Scaled | colours.c:94-98 | the target gets c scaled by f and keeps its own alpha |
| Colours.ScaledDown | colours.c:99-103 | scaling the result back up by f gives c's rgb; the target keeps its alpha |
| Colours.Mult | colours.c:105-109 | channel-wise product with the second colour; alpha untouched |
| Colours.Multiplied | colours.c:111-115 | the target gets the channel-wise product and keeps its own alpha |
| Colours.Divide | colours.c:117-121 | multiplying the result by the divisor gives the colour back |
| Colours.Divided | colours.c:123-127 | the target gets the channel-wise quotient and keeps its own alpha |
| Colours.AdditiveMix | colours.c:129-133 | channel-wise sum; alpha untouched |
| Colours.AdditiveMixed | colours.c:135-139 | the target gets the channel-wise sum and keeps its own alpha |
| Colours.MixWithGreyBrightens | colours.c:129-133 | adding a grey of value f is the same as brightening by f |
| Colours.SameColourIgnoresAlpha | colours.c:141-143 | two colours are the same exactly when they agree once alpha is ignored |
| Colours.SameColourEquivalence | colours.c:141-143 | sameColour is reflexive, symmetric and transitive |
| Colours.BlackAndWhite | colours.h:14-15 | COLOUR_BLACK and COLOUR_WHITE are the opaque greys 0 and 1, within [0, 1], and not the same colour |
| Colours.ColourDist | colours.c:146-152 | the weighted distance is non-negative and 0 for the same colour |
| Colours.ColourDistSymmetric | colours.c:146-152 | the distance from x to y equals the distance from y to x |
| Colours.GetRGB | colours.c:154-156 | each channel times 255; channels in [0, 1] land in [0, 255] |
| Colours.GetComponentWaveLength | colours.c:158-161 | the table entry (5.70, 5.40, 4.40) below 3, which is positive, else 0 |
| Colours.GetComponentColour | colours.c:163-174 | an opaque colour that keeps only the chosen channel; black for any component outside 0..2 |
| Colours.ComponentsRecompose | colours.c:163-174 | mixing the three component colours gives back the colour's rgb |
| Colours.MultComponent | colours.c:176-186 | scales exactly the named channel and leaves the others and alpha alone; a no-op outside 0..2 |
| Colours.MultComponentIsMult | colours.c:176-186 | scaling one component is multiplication by the colour that is s there and 1 elsewhere |
| Colours.Decay | colours.c:188-200 | a filter equal to white in rgb leaves the colour unchanged; otherwise each channel is multiplied by the filter channel times exp(-x(1 - channel)) |
| Buffers.MakeBuffer | buffers.c:15-27 | width w, firstLine 0, size h, and a fresh data array of w*h cells |
| Buffers.PartialBuffer | buffers.c:29-34 | shares width and data; the size is the truncating quotient size/parts; firstLine moves down by size*index; the bands fit in the parent |
| Buffers.SetPixel | buffers.c:36-38 | changes exactly cell x + width*y to c and no other cell |
| Buffers.CellBound | buffers.c:41-43 | every cell the row loops visit is inside the data array |
| Buffers.MapLoopCells | buffers.c:41-42 | the loops' effect: the cells with 0 <= x < width and firstLine <= y < size are mapped, and all others are kept |
| Buffers.MapRows | buffers.c:40-56 | the x-outer, y-inner loop applies f to exactly the visited cells, up to row size rather than firstLine + size |
| Buffers.Clear | buffers.c:50-56 | the data becomes the old data with every visited cell set to black |
| Buffers.ClearedCells | buffers.c:50-56 | after clear, every cell with 0 <= x < width and firstLine <= y < size is black, and every other cell is unchanged |
| Buffers.ExposeCell | buffers.c:43-45 | scale, then gamma 1/gamma, then clip: the result's rgb is in [0, 1] and alpha is kept |
| Buffers.Expose | buffers.c:40-48 | the data becomes the old data with every visited cell tone-mapped |
| Buffers.ExposedCells | buffers.c:40-48 | after expose, every visited cell has rgb in [0, 1] |
| Buffers.PixelBytes | buffers.c:62-63 | a colour in [0, 1] becomes three bytes in [0, 255] |
| Buffers.CellBytes | buffers.c:60-64 | the byte triple of every cell, in order |
| Buffers.WriteToImage | buffers.c:58-67 | the header carries width and size; the pixels are the bytes of the contiguous cells width*firstLine .. width*size, row by row with x innermost; no rows are emitted when size <= firstLine |
| Buffers.ByteRoundTrip | buffers.c:62-63 | a channel v in [0, 1] gives a byte in [0, 255], and byte/255 lies within 1/255 below v |
| Buffers.BandsDisjoint | buffers.c:29-34 | two different bands of a split never share a row |
| Buffers.BandOfRow | buffers.c:29-34 | every row below parts*(size/parts) lies in one band, which the lemma names |
| Buffers.BandsCover | buffers.c:29-34 | a row is in some band exactly when it lies in [0, parts*(size/parts)), and that range is inside [0, size) |
| Buffers.LaterBandsVisitNothing | buffers.c:29-56 | because the loops stop at size rather than firstLine + size, bands 1 and later visit no row at all, and band 0 visits exactly its own rows |
| Triangles.MeshVec | models.c:82-86 | the vector at mesh offset k is the floats k, k+1 and k+2 |
| Triangles.TransformSlot | models.c:82-101 | a slot write keeps the record's id and colours |
| Triangles.TransformSlots | models.c:81-102 | the first n slot writes keep the id and colours |
| Triangles.TransformedTriangle | models.c:80-102 | all six slot writes together give the projected vertices from the even slots and the transformed normals from the odd slots, read at ID*18 + 3j |
| Triangles.TransformIdempotent | models.c:80-102 | a transformed record keeps its colours and id, and transforming it again with the same matrices changes nothing |
| Triangles.TransformEach | models.c:80-103 | every record is transformed, each from its own mesh slots |
| Triangles.TransformRecord | models.c:81-102 | the j loop over one record produces exactly the transformed record |
| Triangles.TransformAll | models.c:80-103 | the record array becomes the transformed records, index for index |
| Triangles.Intensity | models.c:113-130 | N·L with L the unit vector to the light, clamped below at 0, so never negative |
| Triangles.GreyVec | models.c:131 | all three channels of the corner hold the same value |
| Triangles.ShadedTriangle | models.c:110-132 | shading changes only the colours: vertices, normals and id are kept; each corner's three channels are equal and non-negative |
| Triangles.ShadeIdempotent | models.c:110-132 | a shaded record still has its light clear of every corner, and shading it again changes nothing |
| Triangles.ShadeEach | models.c:109-134 | every record is shaded, each from its own mesh position |
| Triangles.CornerLight | models.c:113-130 | the corner computation, reading the untransformed mesh at ID*18 + 6j, gives the corner's intensity |
| Triangles.ShadeRecord | models.c:110-133 | the j and c loops over one record produce exactly the shaded record |
| Triangles.ShadeAll | models.c:109-134 | the record array becomes the shaded records, index for index |
| Models.Model.RecordsInMesh | models.c:80-86 | every record's ID addresses 18 floats inside the mesh, so every mesh read is in bounds |
| Models.Model.FromMesh | models.c:49-56 | a fresh mesh equal to the first tris*18 floats of the input, triangleCount = tris, cursor 0, and record i has ID i |
| Models.Model.PrepareMesh | models.c:33-40 | the cursor becomes 0 and a fresh record array gives record i the ID i |
| Models.Model.TrianglesLeft | models.c:63-65 | true exactly when curTriangle != triangleCount |
| Models.Model.NextTriangle | models.c:67-69 | returns the record at the cursor and advances the cursor by exactly 1 |
| Models.Model.TriangleCount | models.c:71-73 | the stored triangle count |
| Models.Model.ApplyTransforms | models.c:75-106 | every record is replaced by its transformed version, the mesh is kept, and the cursor is reset to 0 |
| Models.Model.Shade | models.c:108-135 | every record is replaced by its shaded version; mesh and cursor are untouched |
| TriangleFactories.CompareZ | trianglefactory.h:227-237 | 1 exactly when t1's vertex-depth sum strictly exceeds t2's, else 0, and 0 for equal sums |
| TriangleFactories.CompareZOrder | trianglefactory.h:227-237 | compareZ is asymmetric, hence irreflexive, and transitive |
| TriangleFactories.TriangleFactory.RecordsInMesh | trianglefactory.h:144-150 | every record's ID addresses 18 floats inside the mesh |
| TriangleFactories.TriangleFactory.FromFile | trianglefactory.h:52-55 | ignores its argument and loads "suzanne.raw"; then the records are prepared |
| TriangleFactories.TriangleFactory.FromArray | trianglefactory.h:57-61 | adopts the caller's mesh array without copying; then the records are prepared |
| TriangleFactories.TriangleFactory.PrepareMesh | trianglefactory.h:63-112 | cursor, rotation and rotx become 0; record i has ID i, the three mesh positions as vertices, and red, green and blue corners |
| TriangleFactories.TriangleFactory.Empty | trianglefactory.h:120-122 | true exactly when curTriangle == triangleCount |
| TriangleFactories.TriangleFactory.Fetch | trianglefactory.h:124-126 | returns the record at the cursor and advances the cursor by exactly 1 |
| TriangleFactories.TriangleFactory.GetTriangleCount | trianglefactory.h:128-130 | the stored triangle count |
| TriangleFactories.TriangleFactory.Transform | trianglefactory.h:132-170 | records transformed with ModelView = translate(0, 0, 6) · rotY(rotation) and Projection = perspective(45, 4/3, 1, 32) (lines 133-139), never with rotx; cursor reset to 0 |
| TriangleFactories.TriangleFactory.Shade | trianglefactory.h:172-200 | every record is replaced by its shaded version; nothing else changes |
| TriangleFactories.TriangleFactory.Rotate | trianglefactory.h:206-208 | rotation grows by r and nothing else changes |
| TriangleFactories.TriangleFactory.Tilt | trianglefactory.h:210-213 | rotx grows by t and nothing else changes |
| Rasterizer.ScreenEnds | rasterizer.c:28-29 | SCREEN_X and SCREEN_Y send -1 to pixel 0 and 1 to 2*(size/2) with C's integer halving, which is the size when it is even; for a non-negative size they keep the order of coordinates |
| Rasterizer.CullWinding | rasterizer.c:65-73 | the cull test depends only on the winding: a cyclic renumbering keeps the cross product, a reversed winding negates it, so of a non-degenerate triangle and its mirror image exactly one is culled, and a zero-area triangle is never culled |
| Rasterizer.ScreenXs | rasterizer.c:76-79 | three screen x coordinates, one per vertex, via SCREEN_X |
| Rasterizer.ScreenYs | rasterizer.c:76-79 | three screen y coordinates, one per vertex, via SCREEN_Y |
| Rasterizer.UnitNX | rasterizer.c:82-88 | one unit-normal x per edge |
| Rasterizer.UnitNY | rasterizer.c:82-88 | one unit-normal y per edge |
| Rasterizer.Normalisers | rasterizer.c:91-93 | one normaliser per edge |
| Rasterizer.SetUp | rasterizer.c:64-109 | a set-up record has the screen vertices of the triangle, non-zero normalisers and a box inside the screen |
| Rasterizer.Record | rasterizer.c:95-105 | the floor/ceil box, clamped to [0, WIDTH] x [0, HEIGHT], lies on the screen |
| Rasterizer.SetUpEdges | rasterizer.c:82-93 | a set-up record's normals and normalisers are those of its own screen edges |
| Rasterizer.SetUpFound | rasterizer.c:76-105 | a record built by the set-up loops is the one SetUp returns |
| Rasterizer.SetUpFlat | rasterizer.c:82-88 | a triangle with a zero-length screen edge gets no record |
| Rasterizer.SetUpDegenerate | rasterizer.c:91-93 | a triangle with a zero normaliser gets no record |
| Rasterizer.ScreenVertices | rasterizer.c:76-79 | the vertex loop computes the screen coordinates |
| Rasterizer.EdgeNormals | rasterizer.c:82-88 | the normal loop reports a zero-length edge exactly when there is one, and otherwise computes the unit normals |
| Rasterizer.EdgeNormalisers | rasterizer.c:91-93 | the normaliser loop computes the normalisers |
| Rasterizer.IndexInBounds | rasterizer.c:129-146 | every on-screen pixel's zbuf index y*width + x and pbuf index x + width*y are in bounds |
| Rasterizer.CellsOfPixel | rasterizer.c:129-146 | an on-screen pixel's cell indices decode back to (x, y) |
| Rasterizer.CellsDistinct | rasterizer.c:129-146 | different on-screen pixels use different cells in both buffers |
| Rasterizer.PlotPixel | rasterizer.c:113-147 | one depth test keeps both buffer sizes, never lowers a depth, and leaves cells off the screen alone |
| Rasterizer.DrawSpan | rasterizer.c:112-151 | the x loop keeps both buffer sizes |
| Rasterizer.SpanKeeps | rasterizer.c:112-151 | the x loop never lowers a depth and leaves off-screen cells alone |
| Rasterizer.DrawRows | rasterizer.c:111-152 | the y loop keeps both buffer sizes |
| Rasterizer.RowsKeeps | rasterizer.c:111-152 | the y loop never lowers a depth and leaves off-screen cells alone |
| Rasterizer.DrawTriangle | rasterizer.c:64-152 | one triangle keeps sizes, never lowers a depth and leaves off-screen cells alone |
| Rasterizer.DrawTriangles | rasterizer.c:61-153 | the triangles in order keep sizes, never lower a depth and leave off-screen cells alone |
| Rasterizer.PlotAt | rasterizer.c:113-147 | the loop body, with its short-circuit edge tests and strict greater-than depth test, changes the buffers exactly as one depth test |
| Rasterizer.FillSpan | rasterizer.c:112-151 | the x loop over [xmin, xmax) changes the buffers exactly as the span fold |
| Rasterizer.FillBox | rasterizer.c:111-152 | the y loop over [ymin, ymax) changes the buffers exactly as the row fold |
| Rasterizer.RasterizeTriangle | rasterizer.c:62-152 | one iteration (cull, set-up, box rejection, fill) changes the buffers exactly as one triangle |
| Rasterizer.DrawOneMore | rasterizer.c:61-62 | drawing one more triangle of the cursor order extends the fold by that triangle |
| Rasterizer.Rasterize | rasterizer.c:43-154 | on return the cursor is exhausted and the buffers are those after drawing the remaining records once each, in cursor order |
| Rasterizer.PlotPixelOwn | rasterizer.c:129-146 | one depth test leaves its own pixel with the interpolated depth and colour when it wins, and as it was otherwise |
| Rasterizer.PlotPixelElsewhere | rasterizer.c:129-146 | one depth test leaves every other pixel as it was |
| Rasterizer.AfterOfPixel | rasterizer.c:124-146 | what a depth test leaves at a pixel depends only on what that pixel held before |
| Rasterizer.SpanOutside | rasterizer.c:112-151 | after the x loop, every pixel outside the span is unchanged |
| Rasterizer.SpanInside | rasterizer.c:112-151 | after the x loop, each pixel of the span has been tested exactly once, against what it held before the loop |
| Rasterizer.RowsOutside | rasterizer.c:111-152 | a pixel outside the box rows visited so far is unchanged |
| Rasterizer.RowsLast | rasterizer.c:111-152 | a box pixel in the last visited row has been tested exactly once, against what it held before the y loop |
| Rasterizer.RowsInside | rasterizer.c:111-152 | a pixel of the box in the visited rows has been tested exactly once |
| Rasterizer.DrawTriangleAt | rasterizer.c:64-152 | a pixel takes the interpolated depth and colour, with a strictly greater depth, exactly when the triangle faces the viewer, is set up, has the pixel in its box, covers it in all three closed half-planes and wins the depth test; every other pixel is unchanged |
| Rasterizer.RecolouredMeansNearer | rasterizer.c:129-146 | over any sequence of triangles, a pixel's depth never decreases, and a pixel whose colour changed has strictly greater depth |
| Rasterizer.UnitNormalEntry | rasterizer.c:82-88 | the normal of edge i is the perpendicular of vertex (i+1)%3 minus vertex i, divided by the edge's non-zero length |
| Rasterizer.NormaliserEntry | rasterizer.c:91-93 | normaliser i is edge i's line function at vertex (i+2)%3 |
| Rasterizer.CoveredByWeights | rasterizer.c:113-121 | with positive normalisers, the three edge tests pass exactly where the three weights d/b are non-negative |
| Rasterizer.CoveredAtMeeting | rasterizer.c:113-118 | a vertex whose weights are fixed at 0, 1 and 0 passes the edge tests when the normalisers are positive |
| Rasterizer.CornersCovered | rasterizer.c:82-118 | every screen vertex of a record set up from its own edges, with positive normalisers, passes the three edge tests |
| Rasterizer.OriginWeight | rasterizer.c:113-121 | weight i is 0 at vertex i |
| Rasterizer.MeasuredWeight | rasterizer.c:113-121 | a weight is 1 at the vertex its normaliser was measured at |
| Rasterizer.EndWeight | rasterizer.c:113-121 | weight i is 0 at the far end of edge i |
| Rasterizer.VertexWeights | rasterizer.c:113-121 | at a vertex, one weight is 1 and the other two are 0 |
| Rasterizer.BlendPicks | rasterizer.c:124-143 | the fixed correspondence: weight d2 picks vertex 0, d3 picks vertex 1 and d1 picks vertex 2 |
| Rasterizer.PointBlends | rasterizer.c:124-143 | depth and every colour channel use that one correspondence |
| Rasterizer.EdgesMeet | rasterizer.c:82-93 | at vertex j, the edges ending and starting there have the normal and normaliser values that make the weights pick j |
| Rasterizer.CornerValuesOf | rasterizer.c:124-143 | those edge values give the vertex's own 1/z and colour at the vertex |
| Rasterizer.CornerValues | rasterizer.c:82-143 | at each screen vertex, the interpolated depth is that vertex's 1/z and the interpolated colour is that vertex's colour |

## Left out

- File input is not part of this model: `readRawMesh` in models.c and trianglefactory.h, and `makeModelFromMeshFile`. The file constructor takes a reader function instead.
- The `bmp_*` output calls are not part of this model. WriteToImage returns the header values and the byte triples as an `Image` value.
- Windowing and the driver are not part of this model: `display`, `reshape`, the keyboard handlers and `main` in rasterizer.c, and main.c.
- The matrix functions of matrices.h are not part of this model. They are passed in as a `MatrixLib` record of functions.
- `sqrt`, `scalarPow`/`exp` and the float reciprocal are passed in as functions.
- Float rounding, overflow, infinities and NaN are not modelled; scalars are reals.
- The initial depth value (`FLT_MIN` in the drivers) is not fixed. The frame the rasterizer starts from is an input.
- Memory management is not modelled: `freeModel`, `freeBuffer`, the commented-out shared-memory code, the undefined `freePartialBuffer`, and the `TriangleFactory` destructor.
- `colPrintf` (debug output) and `zorder` (an empty body) are not modelled.
- TriangleFactory.PrepareMesh: the source also writes `vertices[0][3..5]`, `vertices[1][6..8]` and `vertices[2][9..11]`. Those are out-of-bounds writes with undefined effect on neighbouring fields, and the model does not make them.
- GetComponentWaveLength: requires a non-negative component, because the source would index before the table.
- ScaledDown: requires a non-zero divisor, because the source divides by it.
- Divide: requires every divisor channel to be non-zero, because the source divides by each.
- Divided: requires every divisor channel to be non-zero, because the source divides by each.
- PartialBuffer: requires a non-zero number of parts, because the source divides by it.
- MakeBuffer: requires non-negative dimensions, because the source allocates width*height cells.
- ExposeCell: requires a non-zero gamma, because the source takes 1/gamma.
- SetPixel: requires the cell to be inside the data array. The source writes wherever the index points.
- MapRows, Clear, Expose and WriteToImage: require every cell index their loops compute (`x + width * y` for y in [firstLine, size)) to lie inside the data array. The source reads and writes wherever that index points, including past the end of a partial buffer's slice.
- Intensity: requires the light to be away from the corner, because the source divides by the distance. The same precondition is on Models.Model.Shade, TriangleFactories.TriangleFactory.Shade, ShadeRecord, ShadeAll and ShadeEach.
- NextTriangle: returns the record by value rather than a pointer into the array, and requires the cursor to be before the end, because the source would read past the array. The same applies to TriangleFactories.TriangleFactory.Fetch.
- Fetch: returns the record by value rather than a pointer, and requires the cursor to be before the end.
- FromMesh: requires a non-negative count and an input of at least tris*18 floats, which the source's `memcpy` reads.
- SetUp: a triangle with a zero-length screen edge, or with a zero normaliser, gets no record and is skipped; the model states the source's outcome directly rather than computing with NaN. A zero-length edge divides 0 by 0 when its normal is normalised (rasterizer.c:85-87), so that edge's line value is NaN at every pixel, its `d >= 0` test fails and nothing is written. A zero normaliser with every edge of non-zero length means the three screen vertices are collinear: the normals are finite, the edge tests all pass only on the line itself, where each line value is 0, and there the weights d/b are 0/0 (rasterizer.c:119-121), so the interpolated depth is NaN, the test `z > zbuf[...]` fails (rasterizer.c:124-129) and again nothing is written.
- Rasterize: requires both buffer strides to be at least WIDTH and the arrays to hold a full 320 x 240 screen at those strides. The source assumes a `width`-wide window and an equally wide buffer.
- Rasterize: the model describes the result as a fold over the remaining records rather than tracking `modelTri` as a pointer.
- Rasterize: the depth buffer and the model's mesh are both arrays of reals, so a caller may pass the mesh as the depth buffer. Rasterize then overwrites those mesh entries exactly as the C code would, and no contract claims the mesh is unchanged; the record array and the pixel buffer have other element types and cannot alias either.
