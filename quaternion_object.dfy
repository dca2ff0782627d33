/** The `CQuaternion` object: four fields that its methods overwrite in
    place.

    Every mutating method states its new value as a function of the old one
    (and of the old values of its operands, so a call whose operand is this
    very object is covered); the properties of those functions are proved in
    `Quaternions` and `Rotations`. The static twins clone their first operand
    and mutate the clone, so they return a fresh object and change nothing. */
module QuaternionObject {
  import opened RealMath
  import Vectors
  import opened Quaternions
  import opened Matrices
  import opened Rotations

  class Quaternion {
    var w: real
    var x: real
    var y: real
    var z: real

    function Value(): Quat
      reads this
    {
      Quat(w, x, y, z)
    }

    constructor (w0: real, x0: real, y0: real, z0: real)
      ensures Value() == Quat(w0, x0, y0, z0)
    {
      w, x, y, z := w0, x0, y0, z0;
    }

    /** The constructor with every argument left at its default. */
    constructor Default()
      ensures Value() == Identity
      ensures IsIdentity(Value())
    {
      w, x, y, z := 1.0, 0.0, 0.0, 0.0;
    }

    method Clone() returns (c: Quaternion)
      ensures fresh(c)
      ensures c.Value() == Value()
    {
      c := new Quaternion(w, x, y, z);
    }

    method Conjugate()
      modifies this
      ensures Value() == Conjugated(old(Value()))
    {
      x := -x;
      y := -y;
      z := -z;
    }

    static method ConjugateOf(q: Quaternion) returns (r: Quaternion)
      ensures fresh(r)
      ensures r.Value() == Conjugated(q.Value())
    {
      r := q.Clone();
      r.Conjugate();
    }

    method Reset()
      modifies this
      ensures Value() == Identity
      ensures IsIdentity(Value())
    {
      w, x, y, z := 1.0, 0.0, 0.0, 0.0;
    }

    /** `inverse`, guard as written. */
    method Inverse(lib: MathLib)
      requires SqrtLaws(lib.sqrt)
      requires Value() != Nil
      modifies this
      ensures Value() == Quaternions.Inverse(lib, old(Value()))
    {
      var l := Quaternions.Length(lib, Value());
      if Abs(l) > Epsilon {
        w, x, y, z := 0.0, 0.0, 0.0, 0.0;
        return;
      }
      SqrtPositive(lib.sqrt, LengthSquared(Value()));
      Conjugate();
      Scale(1.0 / l);
    }

    static method InverseOf(lib: MathLib, q: Quaternion) returns (r: Quaternion)
      requires SqrtLaws(lib.sqrt)
      requires q.Value() != Nil
      ensures fresh(r)
      ensures r.Value() == Quaternions.Inverse(lib, q.Value())
    {
      r := q.Clone();
      r.Inverse(lib);
    }

    /** All four components of the product are computed before any is
        written, so `q.Multiply(q)` squares `q`. */
    method Multiply(other: Quaternion)
      modifies this
      ensures Value() == Product(old(Value()), old(other.Value()))
    {
      var pw, px, py, pz := w, x, y, z;
      var qw, qx, qy, qz := other.w, other.x, other.y, other.z;
      var nw := pw * qw - px * qx - py * qy - pz * qz;
      var nx := pw * qx + px * qw + py * qz - pz * qy;
      var ny := pw * qy + py * qw + pz * qx - px * qz;
      var nz := pw * qz + pz * qw + px * qy - py * qx;
      ProductOfComponents(pw, px, py, pz, qw, qx, qy, qz);
      w, x, y, z := nw, nx, ny, nz;
    }

    static method MultiplyOf(q1: Quaternion, q2: Quaternion) returns (r: Quaternion)
      ensures fresh(r)
      ensures r.Value() == Product(q1.Value(), q2.Value())
    {
      r := q1.Clone();
      r.Multiply(q2);
    }

    method Normalize(lib: MathLib)
      requires SqrtLaws(lib.sqrt)
      requires Value() != Nil
      modifies this
      ensures Value() == Normalized(lib, old(Value()))
      ensures LengthSquared(Value()) == 1.0
    {
      SqrtPositive(lib.sqrt, LengthSquared(Value()));
      var length := Quaternions.Length(lib, Value());
      Scale(1.0 / length);
    }

    static method NormalizeOf(lib: MathLib, q: Quaternion) returns (r: Quaternion)
      requires SqrtLaws(lib.sqrt)
      requires q.Value() != Nil
      ensures fresh(r)
      ensures r.Value() == Normalized(lib, q.Value())
    {
      r := q.Clone();
      r.Normalize(lib);
    }

    method FromRotationAxis(lib: MathLib, axis: Vectors.Vec3, angle: real)
      modifies this
      ensures Value() == FromAxisAngle(lib, axis.Value(), angle)
    {
      var rad := angle * 0.5;
      var scale := lib.sin(rad);
      w := lib.cos(rad);
      x := axis.x * scale;
      y := axis.y * scale;
      z := axis.z * scale;
    }

    /** The zero-initialised 4x4 array `fromRotationMatrix` copies the
        matrix into, read back as a sequence. */
    static method WorkingMatrix(matrix: Mat3) returns (pMatrix: seq<real>)
      ensures pMatrix == Embedded(matrix)
    {
      var m4x4 := new real[] [0.0, 0.0, 0.0, 0.0, 0.0, 0.0, 0.0, 0.0, 0.0, 0.0, 0.0, 0.0, 0.0, 0.0, 0.0, 0.0];
      m4x4[0] := matrix.x1;
      m4x4[1] := matrix.x2;
      m4x4[2] := matrix.x3;
      m4x4[4] := matrix.y1;
      m4x4[5] := matrix.y2;
      m4x4[6] := matrix.y3;
      m4x4[8] := matrix.z1;
      m4x4[9] := matrix.z2;
      m4x4[10] := matrix.z3;
      m4x4[15] := 1.0;
      pMatrix := m4x4[..];
      assert pMatrix == Embedded(matrix);
    }

    /** Copies the matrix into a zeroed 4x4 working array, then extracts the
        quaternion from the branch the diagonal selects. */
    method FromRotationMatrix(lib: MathLib, matrix: Mat3)
      requires SqrtLaws(lib.sqrt)
      modifies this
      ensures Value() == FromMatrix(lib, matrix)
    {
      var pMatrix := WorkingMatrix(matrix);
      var nw, nx, ny, nz: real;
      var diagonal := pMatrix[0] + pMatrix[5] + pMatrix[10] + 1.0;
      if diagonal > Epsilon {
        var scale := lib.sqrt(diagonal) * 2.0;
        FromMatrixTraceSteps(lib, matrix, pMatrix, scale);
        nw := 0.25 * scale;
        nx := (pMatrix[9] - pMatrix[6]) / scale;
        ny := (pMatrix[2] - pMatrix[8]) / scale;
        nz := (pMatrix[4] - pMatrix[1]) / scale;
      } else if pMatrix[0] > pMatrix[5] && pMatrix[0] > pMatrix[10] {
        var scale := lib.sqrt(1.0 + pMatrix[0] - pMatrix[5] - pMatrix[10]) * 2.0;
        FromMatrixXSteps(lib, matrix, pMatrix, scale);
        nw := (pMatrix[9] - pMatrix[6]) / scale;
        nx := 0.25 * scale;
        ny := (pMatrix[4] + pMatrix[1]) / scale;
        nz := (pMatrix[2] + pMatrix[8]) / scale;
      } else if pMatrix[5] > pMatrix[10] {
        var scale := lib.sqrt(1.0 + pMatrix[5] - pMatrix[0] - pMatrix[10]) * 2.0;
        FromMatrixYSteps(lib, matrix, pMatrix, scale);
        nw := (pMatrix[2] - pMatrix[8]) / scale;
        nx := (pMatrix[4] + pMatrix[1]) / scale;
        ny := 0.25 * scale;
        nz := (pMatrix[9] + pMatrix[6]) / scale;
      } else {
        var scale := lib.sqrt(1.0 + pMatrix[10] - pMatrix[0] - pMatrix[5]) * 2.0;
        FromMatrixZSteps(lib, matrix, pMatrix, scale);
        nw := (pMatrix[4] - pMatrix[1]) / scale;
        nx := (pMatrix[2] + pMatrix[8]) / scale;
        ny := (pMatrix[9] + pMatrix[6]) / scale;
        nz := 0.25 * scale;
      }
      w, x, y, z := nw, nx, ny, nz;
    }

    /** Writes the raw product of the three half-angle rotations, then
        normalises it; the raw value must not be zero. */
    method FromYawPitchRoll(lib: MathLib, yaw: real, pitch: real, roll: real)
      requires SqrtLaws(lib.sqrt)
      requires YawPitchRollRaw(lib, yaw, pitch, roll) != Nil
      modifies this
      ensures Value() == Rotations.FromYawPitchRoll(lib, yaw, pitch, roll)
      ensures LengthSquared(Value()) == 1.0
    {
      var ex := pitch * 0.5;
      var ey := yaw * 0.5;
      var ez := roll * 0.5;
      var cr := lib.cos(ex);
      var cp := lib.cos(ey);
      var cy := lib.cos(ez);
      var sr := lib.sin(ex);
      var sp := lib.sin(ey);
      var sy := lib.sin(ez);
      var cpcy := cp * cy;
      var spsy := sp * sy;
      w := cr * cpcy + sr * spsy;
      x := sr * cpcy - cr * spsy;
      y := cr * sp * cy + sr * cp * sy;
      z := cr * cp * sy - sr * sp * cy;
      assert Value() == YawPitchRollRaw(lib, yaw, pitch, roll);
      Normalize(lib);
    }

    /** A fresh copy of `q1` when the two are equal component by component;
        otherwise the weighted sum of clones. */
    static method Slerp(lib: MathLib, q1: Quaternion, q2: Quaternion, t: real) returns (r: Quaternion)
      requires q1.Value() != q2.Value() ==> SineOfAngle(lib, Dot(q1.Value(), q2.Value())) != 0.0
      ensures fresh(r)
      ensures r.Value() == Rotations.Slerp(lib, q1.Value(), q2.Value(), t)
    {
      if q1.w == q2.w && q1.x == q2.x && q1.y == q2.y && q1.z == q2.z {
        r := new Quaternion(q1.w, q1.x, q1.y, q1.z);
        return;
      }
      assert q1.Value() != q2.Value();
      var ct := Dot(q1.Value(), q2.Value());
      var theta := lib.acos(ct);
      var st := SineOfAngle(lib, ct);
      var stt := lib.sin(t * theta) / st;
      var somt := lib.sin((1.0 - t) * theta) / st;
      SlerpWeightSteps(lib, theta, st, t);
      assert stt == SlerpWeight(lib, theta, st, t) && somt == SlerpWeight(lib, theta, st, 1.0 - t);
      var temp1 := q1.Clone();
      temp1.Scale(somt);
      var temp2 := q2.Clone();
      temp2.Scale(stt);
      r := AddOf(temp1, temp2);
    }

    /** Writes the axis into `axis` and returns the angle; this quaternion is
        not changed. */
    method ToAxisAngle(lib: MathLib, axis: Vectors.Vec3) returns (angle: real)
      requires SqrtLaws(lib.sqrt)
      modifies axis
      ensures AxisAngle(axis.Value(), angle) == Rotations.ToAxisAngle(lib, Value())
    {
      var tempAngle := lib.acos(w);
      // the square root of the squared components of the vector part
      var scale := Vectors.Length(lib, Vectors.V3(x, y, z));
      if Abs(scale) < Epsilon || (scale < 2.0 * lib.pi + Epsilon && scale > 2.0 * lib.pi - Epsilon) {
        angle := 0.0;
        axis.x := 0.0;
        axis.y := 0.0;
        axis.z := 1.0;
        return;
      }
      angle := tempAngle * 2.0;
      axis.x := x / scale;
      axis.y := y / scale;
      axis.z := z / scale;
      assert axis.Value() == Vectors.Divided(VectorPart(Value()), scale);
      Vectors.DividedByLength(lib, VectorPart(Value()), scale);
      axis.Normalize(lib);
    }

    method Scale(s: real)
      modifies this
      ensures Value() == Scaled(old(Value()), s)
    {
      w := w * s;
      x := x * s;
      y := y * s;
      z := z * s;
    }

    static method ScaleOf(q: Quaternion, s: real) returns (r: Quaternion)
      ensures fresh(r)
      ensures r.Value() == Scaled(q.Value(), s)
    {
      r := q.Clone();
      r.Scale(s);
    }

    /** Copies the four components of `other`. */
    method Assign(other: Quaternion)
      modifies this
      ensures Value() == old(other.Value())
    {
      w, x, y, z := other.w, other.x, other.y, other.z;
    }

    /** Component by component; `q.Add(q)` doubles `q`. */
    method Add(other: Quaternion)
      modifies this
      ensures Value() == Sum(old(Value()), old(other.Value()))
    {
      w := w + other.w;
      x := x + other.x;
      y := y + other.y;
      z := z + other.z;
    }

    static method AddOf(q1: Quaternion, q2: Quaternion) returns (r: Quaternion)
      ensures fresh(r)
      ensures r.Value() == Sum(q1.Value(), q2.Value())
    {
      r := q1.Clone();
      r.Add(q2);
    }

    /** Rotation from the direction of `vec1` to that of `vec2`; `fallback`
        is the axis of the half turn for opposite directions when it is
        short. None of the three vectors changes. */
    method FromRotationBetweenVec3(lib: MathLib, vec1: Vectors.Vec3, vec2: Vectors.Vec3, fallback: Vectors.Vec3)
      requires SqrtLaws(lib.sqrt)
      requires 0.0 < Vectors.LengthSquared(vec1.Value()) && 0.0 < Vectors.LengthSquared(vec2.Value())
      requires Alignment(lib, vec1.Value(), vec2.Value()) < OppositeBound
               && !(Abs(Vectors.LengthSquared(fallback.Value())) < Epsilon)
               ==> 0.0 < Vectors.LengthSquared(PerpendicularAxis(vec1.Value()))
      modifies this
      ensures Value() == FromVectors(lib, old(vec1.Value()), old(vec2.Value()), old(fallback.Value()))
    {
      var v1 := Vectors.Vec3.NormalizedCopy(lib, vec1);
      var v2 := Vectors.Vec3.NormalizedCopy(lib, vec2);
      var a := Vectors.Dot(v1.Value(), v2.Value());
      if a >= 1.0 {
        Reset();
      } else if a < 0.000001 - 1.0 {
        TurnOpposite(lib, vec1, fallback);
      } else {
        TurnBetween(lib, v1, v2);
      }
    }

    /** The opposite-directions branch of `FromRotationBetweenVec3`. */
    method TurnOpposite(lib: MathLib, vec1: Vectors.Vec3, fallback: Vectors.Vec3)
      requires SqrtLaws(lib.sqrt)
      requires !(Abs(Vectors.LengthSquared(fallback.Value())) < Epsilon)
               ==> 0.0 < Vectors.LengthSquared(PerpendicularAxis(vec1.Value()))
      modifies this
      ensures Value() == OppositeTurn(lib, old(vec1.Value()), old(fallback.Value()))
    {
      if Abs(Vectors.LengthSquared(fallback.Value())) < Epsilon {
        FromRotationAxis(lib, fallback, lib.pi);
        return;
      }
      var tmp := new Vectors.Vec3(1.0, 0.0, 0.0);
      var axis := Vectors.Vec3.CrossOf(tmp, vec1);
      if Abs(Vectors.LengthSquared(axis.Value())) < Epsilon {
        axis.x := 0.0;
        axis.y := 1.0;
        axis.z := 0.0;
        axis.Cross(vec1);
      }
      assert axis.Value() == PerpendicularAxis(vec1.Value());
      axis.Normalize(lib);
      FromRotationAxis(lib, axis, lib.pi);
    }

    /** The in-between branch of `FromRotationBetweenVec3`, from the two
        normalised copies. */
    method TurnBetween(lib: MathLib, v1: Vectors.Vec3, v2: Vectors.Vec3)
      requires SqrtLaws(lib.sqrt)
      requires OppositeBound <= Vectors.Dot(v1.Value(), v2.Value())
      modifies this
      ensures Value() == BetweenTurn(lib, old(v1.Value()), old(v2.Value()))
    {
      ghost var u1, u2 := v1.Value(), v2.Value();
      var a := Vectors.Dot(v1.Value(), v2.Value());
      SqrtPositive(lib.sqrt, (1.0 + a) * 2.0);
      var s := lib.sqrt((1.0 + a) * 2.0);
      var invs := 1.0 / s;
      var c := Vectors.Vec3.CrossOf(v1, v2);
      var cx, cy, cz := c.x, c.y, c.z;
      BetweenTurnSteps(lib, u1, u2, a, s, invs, cx, cy, cz);
      w, x, y, z := s * 0.5, cx * invs, cy * invs, cz * invs;
      Normalize(lib);
    }

    /** `v + 2w (u x v) + 2 (u x (u x v))` built in a fresh vector; neither
        this quaternion nor `v` changes. */
    method MultiplyVec3(v: Vectors.Vec3) returns (r: Vectors.Vec3)
      ensures fresh(r)
      ensures r.Value() == Rotate(Value(), v.Value())
    {
      var qvec := new Vectors.Vec3(x, y, z);
      var uv := Vectors.Vec3.CrossOf(qvec, v);
      var uuv := Vectors.Vec3.CrossOf(qvec, uv);
      uv.Scale(2.0 * w);
      uuv.Scale(2.0);
      uv.Add(v);
      uv.Add(uuv);
      r := uv;
    }

    static method MultiplyVec3Of(q: Quaternion, v: Vectors.Vec3) returns (r: Vectors.Vec3)
      ensures fresh(r)
      ensures r.Value() == Rotate(q.Value(), v.Value())
    {
      r := q.MultiplyVec3(v);
    }
  }
}
