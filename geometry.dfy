/**
  Vectors and 4x4 transforms, kept symbolic.

  A transform is the product of a sequence of factors, read left to right: the
  sequence [A, B, C] stands for the matrix A * B * C. The identity is the empty
  product and matrix multiplication is concatenation, so the order in which the
  parser composes transforms is visible exactly, without floating-point values.
*/
module Geometry {
  datatype Vec3 = Vec3(x: real, y: real, z: real)
  datatype Vec4 = Vec4(x: real, y: real, z: real, w: real)

  /** glm::vec3(s): the same value on every axis. */
  function Uniform(s: real): Vec3 {
    Vec3(s, s, s)
  }

  /** Default colour of a fresh node: unit white. */
  const White: Vec3 := Vec3(1.0, 1.0, 1.0)

  datatype Factor =
    | Scale(v: Vec3)
    | Translate(v: Vec3)
      /** z_to_y_up: rotation by -90 degrees about the X axis. */
    | ZToYUp
      /** The inverse of z_to_y_up. */
    | ZToYUpInverse
      /** transpose(make_mat4(cells)): the matrix whose row r, column c is cells[4 * r + c]. */
    | RowMajor(cells: seq<real>)

  type Transform = seq<Factor>

  const Identity: Transform := []

  /** Matrix product a * b. */
  function Mul(a: Transform, b: Transform): Transform {
    a + b
  }

  /** glm::scale(m, v) post-multiplies m by a scale matrix. */
  function ScaleBy(m: Transform, v: Vec3): Transform {
    Mul(m, [Scale(v)])
  }

  /** glm::translate(m, v) post-multiplies m by a translation matrix. */
  function TranslateBy(m: Transform, v: Vec3): Transform {
    Mul(m, [Translate(v)])
  }
}
