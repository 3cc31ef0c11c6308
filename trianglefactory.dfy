/**
 * TriangleFactory, the C++ twin of the C model: the same mesh, record array
 * and cursor, plus the accumulated rotation about Y (`rotation`, used by
 * transform) and about X (`rotx`, accumulated but never used).
 */
module TriangleFactories {
  import opened Scalars
  import opened Matrices
  import opened Triangles

  /** What readRawMesh yields for a file: the triangle count and the scalars read. */
  datatype RawMesh = RawMesh(count: int, floats: seq<real>)

  /** The file the file constructor always loads, whatever it is passed. */
  const MeshFile: string := "suzanne.raw"

  /** The corner colours prepareMesh assigns: pure red, green and blue. */
  const Red: Vec3 := Vec3(1.0, 0.0, 0.0)
  const Green: Vec3 := Vec3(0.0, 1.0, 0.0)
  const Blue: Vec3 := Vec3(0.0, 0.0, 1.0)

  /** The model-view matrix of transform: translate by (0, 0, 6) after rotating about Y. */
  function ModelView(lib: MatrixLib, rotation: real): Matrix
  {
    lib.mult(lib.translate(0.0, 0.0, 6.0), lib.rotY(rotation))
  }

  /** The projection of transform: 45 degrees, aspect 4/3, near 1, far 32. */
  function Projection(lib: MatrixLib): Matrix
  {
    lib.perspective(45.0, 4.0 / 3.0, 1.0, 32.0)
  }

  /** The record prepareMesh leaves for triangle i, apart from its normals. */
  predicate Prepared(t: Triangle, mesh: seq<real>, i: int)
    requires InMesh(|mesh|, i)
  {
    t.vertices == Triple(MeshVec(mesh, i * MeshStride), MeshVec(mesh, i * MeshStride + 6), MeshVec(mesh, i * MeshStride + 12)) &&
    t.colors == Triple(Red, Green, Blue) &&
    t.id == i
  }

  /** The sum of the three vertex depths compareZ orders by. */
  function DepthSum(t: Triangle): real
  {
    t.vertices.c0.z + t.vertices.c1.z + t.vertices.c2.z
  }

  /**
   * compareZ: 1 when t1's depth sum is strictly greater than t2's, else 0;
   * in particular a triangle never compares greater than itself.
   */
  function CompareZ(t1: Triangle, t2: Triangle): (r: int)
    ensures r == 0 || r == 1
    ensures r == 1 <==> DepthSum(t1) > DepthSum(t2)
    ensures DepthSum(t1) == DepthSum(t2) ==> r == 0
  {
    if DepthSum(t1) > DepthSum(t2) then 1 else 0
  }

  /** compareZ is asymmetric and transitive: a strict order on depth sums. */
  lemma CompareZOrder(a: Triangle, b: Triangle, c: Triangle)
    ensures CompareZ(a, b) == 1 ==> CompareZ(b, a) == 0
    ensures CompareZ(a, b) == 1 && CompareZ(b, c) == 1 ==> CompareZ(a, c) == 1
  {
  }

  class TriangleFactory {
    var mesh: array<real>
    var triangleCount: int
    var curTriangle: int
    var triangles: array<Triangle>
    var rotation: real
    var rotx: real

    /** As for the C model: one record per mesh triangle, cursor in range, ids in range. */
    ghost predicate Valid()
      reads this, triangles
    {
      0 <= curTriangle <= triangleCount == triangles.Length &&
      MeshStride * triangleCount <= mesh.Length &&
      forall i :: 0 <= i < triangles.Length ==> 0 <= triangles[i].id < triangleCount
    }

    lemma RecordsInMesh()
      requires Valid()
      ensures AllInMesh(triangles[..], mesh.Length)
    {
      forall i | 0 <= i < triangles.Length
        ensures InMesh(mesh.Length, triangles[i].id)
      {
        var id := triangles[i].id;
        assert id * MeshStride + MeshStride <= triangleCount * MeshStride;
      }
    }

    /**
     * The file constructor: ignores `file`, loads MeshFile through `read`
     * and prepares the records.  The loader must deliver 18 scalars per
     * triangle it announces.
     */
    constructor FromFile(file: string, read: string -> RawMesh)
      requires 0 <= read(MeshFile).count && |read(MeshFile).floats| == MeshStride * read(MeshFile).count
      ensures Valid() && fresh(mesh) && fresh(triangles)
      ensures mesh[..] == read(MeshFile).floats && triangleCount == read(MeshFile).count
      ensures curTriangle == 0 && rotation == 0.0 && rotx == 0.0
      ensures forall i :: 0 <= i < triangleCount ==> InMesh(mesh.Length, i) && Prepared(triangles[i], mesh[..], i)
    {
      var raw := read(MeshFile);
      mesh := new real[MeshStride * raw.count](k => if 0 <= k < |raw.floats| then raw.floats[k] else 0.0);
      triangleCount := raw.count;
      curTriangle := 0;
      triangles := new Triangle[0];
      rotation := 0.0;
      rotx := 0.0;
      new;
      assert mesh[..] == raw.floats;
      PrepareMesh();
    }

    /** The array constructor: adopts the caller's mesh array itself, without copying. */
    constructor FromArray(renderMesh: array<real>, tris: int)
      requires 0 <= tris && MeshStride * tris <= renderMesh.Length
      ensures Valid() && mesh == renderMesh && fresh(triangles)
      ensures triangleCount == tris && curTriangle == 0 && rotation == 0.0 && rotx == 0.0
      ensures forall i :: 0 <= i < triangleCount ==> InMesh(mesh.Length, i) && Prepared(triangles[i], mesh[..], i)
    {
      mesh := renderMesh;
      triangleCount := tris;
      curTriangle := 0;
      triangles := new Triangle[0];
      rotation := 0.0;
      rotx := 0.0;
      new;
      PrepareMesh();
    }

    /**
     * prepareMesh: rewinds the cursor, zeroes both rotations and allocates
     * one record per triangle with the three mesh positions as vertices,
     * red/green/blue corners and id i.
     */
    method PrepareMesh()
      requires 0 <= triangleCount && MeshStride * triangleCount <= mesh.Length
      modifies this`curTriangle, this`triangles, this`rotation, this`rotx
      ensures Valid() && fresh(triangles)
      ensures curTriangle == 0 && rotation == 0.0 && rotx == 0.0
      ensures forall i :: 0 <= i < triangleCount ==> InMesh(mesh.Length, i) && Prepared(triangles[i], mesh[..], i)
    {
      curTriangle := 0;
      var records := new Triangle[triangleCount];
      for i := 0 to records.Length
        invariant curTriangle == 0
        invariant forall k :: 0 <= k < i ==> InMesh(mesh.Length, k) && Prepared(records[k], mesh[..], k)
      {
        assert InMesh(mesh.Length, i) by {
          MulLe(MeshStride, i + 1, triangleCount);
        }
        var base := i * 18;
        var t := records[i];
        t := t.(vertices := Triple(
          Vec3(mesh[base], mesh[base + 1], mesh[base + 2]),
          Vec3(mesh[base + 6], mesh[base + 7], mesh[base + 8]),
          Vec3(mesh[base + 12], mesh[base + 13], mesh[base + 14])));
        t := t.(colors := Triple(Vec3(1.0, 0.0, 0.0), Vec3(0.0, 1.0, 0.0), Vec3(0.0, 0.0, 1.0)));
        t := t.(id := i);
        records[i] := t;
      }
      triangles := records;
      rotation := 0.0;
      rotx := 0.0;
    }

    /** empty: true exactly when the cursor has reached the end. */
    function Empty(): (e: bool)
      reads this
      ensures e <==> curTriangle == triangleCount
    {
      curTriangle == triangleCount
    }

    /** fetch: the record under the cursor; the cursor moves on by one. */
    method Fetch() returns (t: Triangle)
      requires Valid() && curTriangle < triangleCount
      modifies this`curTriangle
      ensures Valid()
      ensures t == triangles[old(curTriangle)] && curTriangle == old(curTriangle) + 1
    {
      t := triangles[curTriangle];
      curTriangle := curTriangle + 1;
    }

    function GetTriangleCount(): (n: int)
      reads this
      ensures n == triangleCount
    {
      triangleCount
    }

    /**
     * transform: the transform pass of the C model with the matrices built
     * from `rotation` alone; the cursor rewinds.
     */
    method Transform(lib: MatrixLib)
      requires Valid()
      modifies this`curTriangle, triangles
      ensures Valid() && curTriangle == 0
      ensures triangles[..] == TransformEach(old(triangles[..]), mesh[..], ModelView(lib, rotation), Projection(lib), lib)
    {
      var transMatrix := lib.translate(0.0, 0.0, 6.0);
      var rotMatrixA := lib.rotY(rotation);
      var mvMatrix := lib.mult(transMatrix, rotMatrixA);
      var pMatrix := lib.perspective(45.0, 4.0 / 3.0, 1.0, 32.0);
      RecordsInMesh();
      TransformAll(triangles, mesh, mvMatrix, pMatrix, lib);
      curTriangle := 0;
    }

    /** shade: the shading pass of the C model. */
    method Shade(light: Vec3, sqrt: real -> real)
      requires Valid()
      requires forall i :: 0 <= i < triangles.Length ==>
        InMesh(mesh.Length, triangles[i].id) && LightClear(triangles[i], mesh[..], light, sqrt)
      modifies triangles
      ensures Valid()
      ensures triangles[..] == ShadeEach(old(triangles[..]), mesh[..], light, sqrt)
    {
      RecordsInMesh();
      ShadeAll(triangles, mesh, light, sqrt);
    }

    /** rotate: accumulates r into `rotation`; nothing else changes. */
    method Rotate(r: real)
      modifies this`rotation
      ensures rotation == old(rotation) + r
    {
      rotation := rotation + r;
    }

    /** tilt: accumulates t into `rotx`; nothing else changes. */
    method Tilt(t: real)
      modifies this`rotx
      ensures rotx == old(rotx) + t
    {
      rotx := rotx + t;
    }
  }
}
