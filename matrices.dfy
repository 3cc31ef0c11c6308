/**
 * 4x4 matrices.  Only the type and the operations the mesh code calls are
 * needed; their implementations are not part of this model, so the
 * operations are handed in as a MatrixLib value and stay uninterpreted.
 */
module Matrices {
  import opened Scalars

  /** Sixteen scalars in row-major order (index = row * 4 + column). */
  datatype Matrix = Matrix(v: seq<real>)

  /**
   * The matrix operations of matrices.h that the core calls, as functions:
   * composition, point transform, normal transform (linear part only),
   * point transform followed by the perspective divide, and the canonical
   * constructors for translation, rotation about Y and perspective
   * projection (field of view in degrees, aspect, near, far).
   */
  datatype MatrixLib = MatrixLib(
    mult: (Matrix, Matrix) -> Matrix,
    apply: (Matrix, Vec3) -> Vec3,
    applyNormal: (Matrix, Vec3) -> Vec3,
    applyPerspective: (Matrix, Vec3) -> Vec3,
    translate: (real, real, real) -> Matrix,
    rotY: real -> Matrix,
    perspective: (real, real, real, real) -> Matrix
  )
}
