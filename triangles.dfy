/**
 * The triangle record and the two per-triangle passes shared by the C model
 * (models.c) and its C++ twin TriangleFactory (trianglefactory.h).
 *
 * A mesh is a flat array of scalars, 18 per triangle: six 3-vectors
 * ("slots") in the order vertex 0, normal 0, vertex 1, normal 1, vertex 2,
 * normal 2.  A triangle record names its mesh triangle by `id`.
 */
module Triangles {
  import opened Scalars
  import opened Matrices

  /** A float[3][3] field: one 3-vector per corner. */
  datatype Triple = Triple(c0: Vec3, c1: Vec3, c2: Vec3) {

    function At(j: int): Vec3
      requires 0 <= j < 3
    {
      if j == 0 then c0 else if j == 1 then c1 else c2
    }

    function With(j: int, v: Vec3): (r: Triple)
      requires 0 <= j < 3
      ensures r.At(j) == v
      ensures forall i :: 0 <= i < 3 && i != j ==> r.At(i) == At(i)
    {
      if j == 0 then this.(c0 := v) else if j == 1 then this.(c1 := v) else this.(c2 := v)
    }
  }

  /** A triple is determined by its three corners. */
  lemma TripleOfCorners(t: Triple)
    ensures t == Triple(t.At(0), t.At(1), t.At(2))
  {
  }

  /** The triangle record: projected vertices, normals, corner colours, mesh index. */
  datatype Triangle = Triangle(vertices: Triple, normals: Triple, colors: Triple, id: int)

  /** Scalars per mesh triangle. */
  const MeshStride: int := 18

  /** Mesh triangle `id` lies entirely inside a mesh of meshLength scalars. */
  predicate InMesh(meshLength: int, id: int)
  {
    0 <= id && id * MeshStride + MeshStride <= meshLength
  }

  /** The 3-vector stored at mesh[k], mesh[k + 1], mesh[k + 2]. */
  function MeshVec(mesh: seq<real>, k: int): (v: Vec3)
    requires 0 <= k && k + 3 <= |mesh|
    ensures v.x == mesh[k] && v.y == mesh[k + 1] && v.z == mesh[k + 2]
  {
    Vec3(mesh[k], mesh[k + 1], mesh[k + 2])
  }

  // ---------------------------------------------------------------- transform pass

  /** Slot j of one record's mesh triangle: scalars id * 18 + 3j .. id * 18 + 3j + 2. */
  function Slot(mesh: seq<real>, id: int, j: int): Vec3
    requires InMesh(|mesh|, id) && 0 <= j < 6
  {
    MeshVec(mesh, id * MeshStride + j * 3)
  }

  /**
   * One step of the inner transform loop: an even slot j is a position,
   * moved by the model-view matrix and projected, and stored as vertex j / 2;
   * an odd slot is a normal, moved by the model-view matrix, stored as
   * normal j / 2.
   */
  function TransformSlot(t: Triangle, mesh: seq<real>, j: int, mv: Matrix, p: Matrix, lib: MatrixLib): (r: Triangle)
    requires InMesh(|mesh|, t.id) && 0 <= j < 6
    ensures r.id == t.id && r.colors == t.colors
  {
    var v := Slot(mesh, t.id, j);
    if j % 2 == 0 then t.(vertices := t.vertices.With(j / 2, lib.applyPerspective(p, lib.apply(mv, v))))
    else t.(normals := t.normals.With(j / 2, lib.applyNormal(mv, v)))
  }

  /** The record after slots 0 .. n - 1 have been transformed, in order. */
  function TransformSlots(t: Triangle, mesh: seq<real>, n: int, mv: Matrix, p: Matrix, lib: MatrixLib): (r: Triangle)
    requires InMesh(|mesh|, t.id) && 0 <= n <= 6
    ensures r.id == t.id && r.colors == t.colors
    decreases n
  {
    if n == 0 then t else TransformSlot(TransformSlots(t, mesh, n - 1, mv, p, lib), mesh, n - 1, mv, p, lib)
  }

  /** Where corner j's projected position comes from: mesh scalars id * 18 + 6j .. + 2. */
  function ProjectedVertex(mesh: seq<real>, id: int, j: int, mv: Matrix, p: Matrix, lib: MatrixLib): Vec3
    requires InMesh(|mesh|, id) && 0 <= j < 3
  {
    lib.applyPerspective(p, lib.apply(mv, MeshVec(mesh, id * MeshStride + 6 * j)))
  }

  /** Where corner j's normal comes from: mesh scalars id * 18 + 6j + 3 .. + 5. */
  function TransformedNormal(mesh: seq<real>, id: int, j: int, mv: Matrix, lib: MatrixLib): Vec3
    requires InMesh(|mesh|, id) && 0 <= j < 3
  {
    lib.applyNormal(mv, MeshVec(mesh, id * MeshStride + 6 * j + 3))
  }

  /**
   * The record the transform pass leaves: every vertex recomputed from its
   * own mesh position and every normal from its own mesh normal; colours
   * and id are kept.
   */
  function TransformTriangle(t: Triangle, mesh: seq<real>, mv: Matrix, p: Matrix, lib: MatrixLib): Triangle
    requires InMesh(|mesh|, t.id)
  {
    t.(vertices := Triple(ProjectedVertex(mesh, t.id, 0, mv, p, lib),
                          ProjectedVertex(mesh, t.id, 1, mv, p, lib),
                          ProjectedVertex(mesh, t.id, 2, mv, p, lib)),
       normals := Triple(TransformedNormal(mesh, t.id, 0, mv, lib),
                         TransformedNormal(mesh, t.id, 1, mv, lib),
                         TransformedNormal(mesh, t.id, 2, mv, lib)))
  }

  /**
   * The slot-to-field mapping of the transform pass: running the six slots
   * in order, even slot j into vertex j / 2 and odd slot j into normal
   * j / 2, overwrites every vertex and every normal from its own mesh slot
   * and keeps colours and id.
   */
  lemma TransformedTriangle(t: Triangle, mesh: seq<real>, mv: Matrix, p: Matrix, lib: MatrixLib)
    requires InMesh(|mesh|, t.id)
    ensures TransformSlots(t, mesh, 6, mv, p, lib) == TransformTriangle(t, mesh, mv, p, lib)
  {
    var r := TransformSlots(t, mesh, 6, mv, p, lib);
    var s := seq(7, n requires 0 <= n <= 6 => TransformSlots(t, mesh, n, mv, p, lib));
    assert r == s[6];
    forall n | 0 <= n < 6
      ensures s[n + 1] == TransformSlot(s[n], mesh, n, mv, p, lib)
    {
    }
    assert r.vertices.At(0) == s[1].vertices.At(0);
    assert r.normals.At(0) == s[2].normals.At(0);
    assert r.vertices.At(1) == s[3].vertices.At(1);
    assert r.normals.At(1) == s[4].normals.At(1);
    assert r.vertices.At(2) == s[5].vertices.At(2);
    TripleOfCorners(r.vertices);
    TripleOfCorners(r.normals);
  }

  /** Every record names a triangle inside the mesh. */
  predicate AllInMesh(ts: seq<Triangle>, meshLength: int)
  {
    forall i :: 0 <= i < |ts| ==> InMesh(meshLength, ts[i].id)
  }

  /**
   * The transform pass recomputes every vertex and normal from the mesh and
   * keeps colours and id, so a second pass with the same matrices leaves
   * what the first one did.
   */
  lemma TransformIdempotent(t: Triangle, mesh: seq<real>, mv: Matrix, p: Matrix, lib: MatrixLib)
    requires InMesh(|mesh|, t.id)
    ensures TransformTriangle(t, mesh, mv, p, lib).colors == t.colors
    ensures TransformTriangle(t, mesh, mv, p, lib).id == t.id
    ensures TransformTriangle(TransformTriangle(t, mesh, mv, p, lib), mesh, mv, p, lib) == TransformTriangle(t, mesh, mv, p, lib)
  {
  }

  /** The record array after the transform pass. */
  function TransformEach(ts: seq<Triangle>, mesh: seq<real>, mv: Matrix, p: Matrix, lib: MatrixLib): (r: seq<Triangle>)
    requires AllInMesh(ts, |mesh|)
    ensures |r| == |ts|
    ensures forall i :: 0 <= i < |ts| ==> r[i] == TransformTriangle(ts[i], mesh, mv, p, lib)
  {
    seq(|ts|, i requires 0 <= i < |ts| => TransformTriangle(ts[i], mesh, mv, p, lib))
  }

  /** The slot loop of the transform pass, for one record. */
  method TransformRecord(t: Triangle, mesh: array<real>, mv: Matrix, p: Matrix, lib: MatrixLib) returns (r: Triangle)
    requires InMesh(mesh.Length, t.id)
    ensures r == TransformTriangle(t, mesh[..], mv, p, lib)
  {
    r := t;
    for j := 0 to 6
      invariant r == TransformSlots(t, mesh[..], j, mv, p, lib)
    {
      var base := r.id * 18 + j * 3;
      var v := Vec3(mesh[base], mesh[base + 1], mesh[base + 2]);
      assert v == Slot(mesh[..], r.id, j);
      if j % 2 == 0 {
        var projected := lib.applyPerspective(p, lib.apply(mv, v));
        r := r.(vertices := r.vertices.With(j / 2, projected));
      } else {
        var moved := lib.applyNormal(mv, v);
        r := r.(normals := r.normals.With(j / 2, moved));
      }
    }
    TransformedTriangle(t, mesh[..], mv, p, lib);
  }

  /** The triangle loop of applyTransforms / TriangleFactory::transform. */
  method TransformAll(triangles: array<Triangle>, mesh: array<real>, mv: Matrix, p: Matrix, lib: MatrixLib)
    requires AllInMesh(triangles[..], mesh.Length)
    modifies triangles
    ensures triangles[..] == TransformEach(old(triangles[..]), mesh[..], mv, p, lib)
  {
    ghost var before := triangles[..];
    ghost var transformed := TransformEach(before, mesh[..], mv, p, lib);
    var i := 0;
    while i != triangles.Length
      invariant 0 <= i <= triangles.Length
      invariant forall k :: 0 <= k < i ==> triangles[k] == transformed[k]
      invariant forall k :: i <= k < triangles.Length ==> triangles[k] == before[k]
    {
      var t := TransformRecord(triangles[i], mesh, mv, p, lib);
      assert t == transformed[i];
      triangles[i] := t;
      i := i + 1;
    }
  }

  // ---------------------------------------------------------------- shading pass

  /** Corner j's offset to the light, from the untransformed mesh position id * 18 + 6j. */
  function LightOffset(mesh: seq<real>, id: int, j: int, light: Vec3): Vec3
    requires InMesh(|mesh|, id) && 0 <= j < 3
  {
    var q := MeshVec(mesh, id * MeshStride + j * 6);
    Vec3(light.x - q.x, light.y - q.y, light.z - q.z)
  }

  /** The length sqrt(Lx² + Ly² + Lz²) the shading pass divides by. */
  function LightDistance(mesh: seq<real>, id: int, j: int, light: Vec3, sqrt: real -> real): real
    requires InMesh(|mesh|, id) && 0 <= j < 3
  {
    var l := LightOffset(mesh, id, j, light);
    sqrt(Dot(l, l))
  }

  /** No corner of the record sits where the light is (the division is defined). */
  predicate LightClear(t: Triangle, mesh: seq<real>, light: Vec3, sqrt: real -> real)
    requires InMesh(|mesh|, t.id)
  {
    LightDistance(mesh, t.id, 0, light, sqrt) != 0.0 &&
    LightDistance(mesh, t.id, 1, light, sqrt) != 0.0 &&
    LightDistance(mesh, t.id, 2, light, sqrt) != 0.0
  }

  /** The diffuse intensity of corner j: the normal dotted with the unit light direction, negatives raised to 0. */
  function Intensity(normal: Vec3, mesh: seq<real>, id: int, j: int, light: Vec3, sqrt: real -> real): (v: real)
    requires InMesh(|mesh|, id) && 0 <= j < 3
    requires LightDistance(mesh, id, j, light, sqrt) != 0.0
    ensures 0.0 <= v
  {
    var l := LightOffset(mesh, id, j, light);
    var len := LightDistance(mesh, id, j, light, sqrt);
    var ndotl := Dot(normal, Over(l, len));
    if ndotl < 0.0 then 0.0 else ndotl
  }

  /** A colour triple entry with all three channels equal to v. */
  function GreyVec(v: real): (c: Vec3)
    ensures c.x == v && c.y == v && c.z == v
  {
    Vec3(v, v, v)
  }

  /** The record after the shading pass: each corner colour is its intensity as grey. */
  function ShadeTriangle(t: Triangle, mesh: seq<real>, light: Vec3, sqrt: real -> real): (r: Triangle)
    requires InMesh(|mesh|, t.id) && LightClear(t, mesh, light, sqrt)
  {
    t.(colors := Triple(
      GreyVec(Intensity(t.normals.At(0), mesh, t.id, 0, light, sqrt)),
      GreyVec(Intensity(t.normals.At(1), mesh, t.id, 1, light, sqrt)),
      GreyVec(Intensity(t.normals.At(2), mesh, t.id, 2, light, sqrt))))
  }

  /**
   * What shading promises: only colours change, every corner colour has
   * three equal channels, and that value is non-negative.
   */
  lemma ShadedTriangle(t: Triangle, mesh: seq<real>, light: Vec3, sqrt: real -> real)
    requires InMesh(|mesh|, t.id) && LightClear(t, mesh, light, sqrt)
    ensures ShadeTriangle(t, mesh, light, sqrt).vertices == t.vertices
    ensures ShadeTriangle(t, mesh, light, sqrt).normals == t.normals
    ensures ShadeTriangle(t, mesh, light, sqrt).id == t.id
    ensures forall j :: 0 <= j < 3 ==>
      var c := ShadeTriangle(t, mesh, light, sqrt).colors.At(j);
      c.x == c.y == c.z && 0.0 <= c.x
  {
  }

  /**
   * Shading reads only the normals, the id and the mesh, and writes only the
   * colours, so shading a shaded record changes nothing.
   */
  lemma ShadeIdempotent(t: Triangle, mesh: seq<real>, light: Vec3, sqrt: real -> real)
    requires InMesh(|mesh|, t.id) && LightClear(t, mesh, light, sqrt)
    ensures LightClear(ShadeTriangle(t, mesh, light, sqrt), mesh, light, sqrt)
    ensures ShadeTriangle(ShadeTriangle(t, mesh, light, sqrt), mesh, light, sqrt) == ShadeTriangle(t, mesh, light, sqrt)
  {
  }

  /** The record array after the shading pass. */
  function ShadeEach(ts: seq<Triangle>, mesh: seq<real>, light: Vec3, sqrt: real -> real): (r: seq<Triangle>)
    requires AllInMesh(ts, |mesh|)
    requires forall i :: 0 <= i < |ts| ==> LightClear(ts[i], mesh, light, sqrt)
    ensures |r| == |ts|
    ensures forall i :: 0 <= i < |ts| ==> r[i] == ShadeTriangle(ts[i], mesh, light, sqrt)
  {
    seq(|ts|, i requires 0 <= i < |ts| => ShadeTriangle(ts[i], mesh, light, sqrt))
  }

  /** The body of the innermost shading loop: corner j's clamped N·L, read straight off the mesh. */
  method CornerLight(t: Triangle, mesh: array<real>, j: int, light: Vec3, sqrt: real -> real) returns (ndotl: real)
    requires InMesh(mesh.Length, t.id) && 0 <= j < 3
    requires LightDistance(mesh[..], t.id, j, light, sqrt) != 0.0
    ensures ndotl == Intensity(t.normals.At(j), mesh[..], t.id, j, light, sqrt)
  {
    var base := t.id * 18 + j * 6;
    var l := Vec3(light.x - mesh[base], light.y - mesh[base + 1], light.z - mesh[base + 2]);
    assert l == LightOffset(mesh[..], t.id, j, light);
    var lenL := sqrt(Dot(l, l));
    l := Vec3(l.x / lenL, l.y / lenL, l.z / lenL);
    ndotl := Dot(t.normals.At(j), l);
    if ndotl < 0.0 {
      ndotl := 0.0;
    }
  }

  /** The corner and channel loops of the shading pass, for one record. */
  method ShadeRecord(t: Triangle, mesh: array<real>, light: Vec3, sqrt: real -> real) returns (r: Triangle)
    requires InMesh(mesh.Length, t.id) && LightClear(t, mesh[..], light, sqrt)
    ensures r == ShadeTriangle(t, mesh[..], light, sqrt)
  {
    ghost var goal := ShadeTriangle(t, mesh[..], light, sqrt);
    r := t;
    for j := 0 to 3
      invariant r.(colors := t.colors) == t
      invariant forall jj :: 0 <= jj < j ==> r.colors.At(jj) == goal.colors.At(jj)
    {
      for c := 0 to 3
        invariant r.(colors := t.colors) == t
        invariant forall jj :: 0 <= jj < j ==> r.colors.At(jj) == goal.colors.At(jj)
        invariant forall cc :: 0 <= cc < c ==> r.colors.At(j).At(cc) == goal.colors.At(j).At(cc)
      {
        var ndotl := CornerLight(r, mesh, j, light, sqrt);
        var corner := r.colors.At(j);
        r := r.(colors := r.colors.With(j, corner.With(c, ndotl)));
      }
      assert r.colors.At(j).At(0) == goal.colors.At(j).At(0);
      assert r.colors.At(j).At(1) == goal.colors.At(j).At(1);
      assert r.colors.At(j).At(2) == goal.colors.At(j).At(2);
    }
    TripleOfCorners(r.colors);
    TripleOfCorners(goal.colors);
  }

  /** The triangle loop of shade / TriangleFactory::shade. */
  method ShadeAll(triangles: array<Triangle>, mesh: array<real>, light: Vec3, sqrt: real -> real)
    requires AllInMesh(triangles[..], mesh.Length)
    requires forall i :: 0 <= i < triangles.Length ==> LightClear(triangles[i], mesh[..], light, sqrt)
    modifies triangles
    ensures triangles[..] == ShadeEach(old(triangles[..]), mesh[..], light, sqrt)
  {
    ghost var before := triangles[..];
    ghost var shaded := ShadeEach(before, mesh[..], light, sqrt);
    var i := 0;
    while i != triangles.Length
      invariant 0 <= i <= triangles.Length
      invariant forall k :: 0 <= k < i ==> triangles[k] == shaded[k]
      invariant forall k :: i <= k < triangles.Length ==> triangles[k] == before[k]
    {
      var t := ShadeRecord(triangles[i], mesh, light, sqrt);
      assert t == shaded[i];
      triangles[i] := t;
      i := i + 1;
    }
  }
}
