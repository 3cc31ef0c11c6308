/**
 * The C model of models.c: a private copy of the mesh, the triangle records
 * naming their mesh triangles by id, and a cursor that walks the records
 * front to back.
 */
module Models {
  import opened Scalars
  import opened Matrices
  import opened Triangles

  class Model {
    var mesh: array<real>
    var triangleCount: int
    var curTriangle: int
    var triangles: array<Triangle>

    /**
     * The record array has one record per mesh triangle, the cursor is
     * within it, and every record names a triangle of the mesh.
     */
    ghost predicate Valid()
      reads this, triangles
    {
      0 <= curTriangle <= triangleCount == triangles.Length &&
      MeshStride * triangleCount <= mesh.Length &&
      forall i :: 0 <= i < triangles.Length ==> 0 <= triangles[i].id < triangleCount
    }

    /** Valid records all lie inside the mesh. */
    lemma RecordsInMesh()
      requires Valid()
      ensures AllInMesh(triangles[..], mesh.Length)
    {
      forall i | 0 <= i < triangles.Length
        ensures InMesh(mesh.Length, triangles[i].id)
      {
        var id := triangles[i].id;
        assert id * MeshStride + MeshStride <= triangleCount * MeshStride;
      }
    }

    /**
     * makeModelFromMesh: copies the first tris * 18 scalars of renderMesh
     * into a fresh mesh and prepares one record per triangle.
     */
    constructor FromMesh(renderMesh: array<real>, tris: int)
      requires 0 <= tris && MeshStride * tris <= renderMesh.Length
      ensures Valid() && fresh(mesh) && fresh(triangles)
      ensures mesh[..] == renderMesh[..MeshStride * tris]
      ensures triangleCount == tris && curTriangle == 0
      ensures forall i :: 0 <= i < tris ==> triangles[i].id == i
    {
      mesh := new real[MeshStride * tris](k reads renderMesh => if 0 <= k < renderMesh.Length then renderMesh[k] else 0.0);
      triangleCount := tris;
      curTriangle := 0;
      triangles := new Triangle[0];
      new;
      PrepareMesh();
    }

    /**
     * prepareMesh: rewinds the cursor and allocates one record per mesh
     * triangle, record i naming triangle i.  The other record fields are
     * left as allocated.
     */
    method PrepareMesh()
      requires 0 <= triangleCount && MeshStride * triangleCount <= mesh.Length
      modifies this`curTriangle, this`triangles
      ensures Valid() && fresh(triangles)
      ensures mesh == old(mesh) && triangleCount == old(triangleCount) && curTriangle == 0
      ensures forall i :: 0 <= i < triangleCount ==> triangles[i].id == i
    {
      curTriangle := 0;
      var records := new Triangle[triangleCount];
      for i := 0 to records.Length
        invariant curTriangle == 0
        invariant forall k :: 0 <= k < i ==> records[k].id == k
      {
        records[i] := records[i].(id := i);
      }
      triangles := records;
    }

    /** modelTrianglesLeft: true exactly while the cursor has not reached the end. */
    function TrianglesLeft(): (left: bool)
      reads this
      ensures left <==> curTriangle != triangleCount
    {
      curTriangle != triangleCount
    }

    /**
     * modelNextTriangle: the record under the cursor; the cursor moves on by
     * one.  The cursor must still be on a record.
     */
    method NextTriangle() returns (t: Triangle)
      requires Valid() && curTriangle < triangleCount
      modifies this`curTriangle
      ensures Valid()
      ensures t == triangles[old(curTriangle)] && curTriangle == old(curTriangle) + 1
    {
      t := triangles[curTriangle];
      curTriangle := curTriangle + 1;
    }

    /** modelTriangleCount. */
    function TriangleCount(): (n: int)
      reads this
      ensures n == triangleCount
    {
      triangleCount
    }

    /**
     * applyTransforms: every record's vertices and normals recomputed from
     * its mesh triangle under the given model-view and projection matrices;
     * the cursor rewinds.
     */
    method ApplyTransforms(mv: Matrix, p: Matrix, lib: MatrixLib)
      requires Valid()
      modifies this`curTriangle, triangles
      ensures Valid() && curTriangle == 0
      ensures triangles[..] == TransformEach(old(triangles[..]), mesh[..], mv, p, lib)
    {
      RecordsInMesh();
      TransformAll(triangles, mesh, mv, p, lib);
      curTriangle := 0;
    }

    /**
     * shade: every corner colour becomes the grey diffuse intensity of the
     * light at (lx, ly, lz).  No corner may sit exactly where the light is.
     */
    method Shade(light: Vec3, sqrt: real -> real)
      requires Valid()
      requires forall i :: 0 <= i < triangles.Length ==>
        InMesh(mesh.Length, triangles[i].id) && LightClear(triangles[i], mesh[..], light, sqrt)
      modifies triangles
      ensures Valid()
      ensures triangles[..] == ShadeEach(old(triangles[..]), mesh[..], light, sqrt)
    {
      RecordsInMesh();
      ShadeAll(triangles, mesh, light, sqrt);
    }
  }
}
