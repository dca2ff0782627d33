/** `CMat3`: a passive 3x3 matrix of nine named entries, read only by the
    rotation-matrix conversion. `(x1, y1, z1)` is the first column, the image
    of the x axis, and `(x1, x2, x3)` the first row. */
module Matrices {

  datatype Mat3 = Mat3(x1: real, y1: real, z1: real,
                       x2: real, y2: real, z2: real,
                       x3: real, y3: real, z3: real)

  const Identity3: Mat3 := Mat3(1.0, 0.0, 0.0,
                                0.0, 1.0, 0.0,
                                0.0, 0.0, 1.0)

  /** The 4x4 working array the conversion copies the matrix into: row `r`,
      column `c` of the 3x3 block sits at index `4 r + c`, the fourth row and
      column are zero, and the corner is one. */
  function Embedded(m: Mat3): seq<real>
  {
    [m.x1, m.x2, m.x3, 0.0,
     m.y1, m.y2, m.y3, 0.0,
     m.z1, m.z2, m.z3, 0.0,
     0.0, 0.0, 0.0, 1.0]
  }
}
