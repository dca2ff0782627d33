/** The conversions of `CQuaternion` to and from other descriptions of a
    rotation: an axis and an angle, a rotation matrix, yaw/pitch/roll angles,
    a pair of directions, and interpolation between two quaternions.

    The trigonometric routines are the uninterpreted fields of `MathLib`, so
    what is proved here is the structure of each conversion: which branch it
    takes, what each branch computes, and the identities that hold whatever
    `sin`, `cos` and `acos` return (or under the stated Pythagorean facts). */
module Rotations {
  import opened RealMath
  import Vectors
  import opened Quaternions
  import opened Matrices

  // ---------------------------------------------------------------------
  // fromRotationAxis

  /** `fromRotationAxis(axis, angle)`: `cos(angle/2) + sin(angle/2) axis`.
      The axis is used as given, not normalised. */
  function FromAxisAngle(lib: MathLib, axis: Vectors.V3, angle: real): Quat {
    var rad := angle * 0.5;
    var s := lib.sin(rad);
    Quat(lib.cos(rad), axis.x * s, axis.y * s, axis.z * s)
  }

  /** `sin^2 + cos^2 = 1` at `a`. */
  predicate Pythagorean(lib: MathLib, a: real) {
    lib.sin(a) * lib.sin(a) + lib.cos(a) * lib.cos(a) == 1.0
  }

  /** `cos(pi / 2) = 0` and `sin(pi / 2) = 1`: what a half turn needs of the
      library. */
  predicate QuarterTurn(lib: MathLib) {
    lib.cos(lib.pi * 0.5) == 0.0 && lib.sin(lib.pi * 0.5) == 1.0
  }

  /** With `sin^2 + cos^2 = 1` at the half angle, a unit axis gives a unit
      quaternion. */
  lemma FromAxisAngleUnit(lib: MathLib, axis: Vectors.V3, angle: real)
    requires Vectors.LengthSquared(axis) == 1.0
    requires Pythagorean(lib, angle * 0.5)
    ensures LengthSquared(FromAxisAngle(lib, axis, angle)) == 1.0
  {
    var s, c := lib.sin(angle * 0.5), lib.cos(angle * 0.5);
    var q := FromAxisAngle(lib, axis, angle);
    assert VectorPart(q) == Vectors.Scaled(axis, s);
    Vectors.LengthSquaredScaled(axis, s);
    assert LengthSquared(q) == c * c + Vectors.LengthSquared(VectorPart(q));
  }

  /** A rotation built from an axis leaves that axis where it is, whatever
      the angle and whatever `sin` and `cos` return. */
  lemma FromAxisAngleFixesAxis(lib: MathLib, axis: Vectors.V3, angle: real)
    ensures Rotate(FromAxisAngle(lib, axis, angle), axis) == axis
  {
    var q := FromAxisAngle(lib, axis, angle);
    var s := lib.sin(angle * 0.5);
    var u := VectorPart(q);
    assert u == Vectors.Scaled(axis, s);
    var uv := Vectors.CrossProduct(u, axis);
    assert uv == Vectors.Zero;
    Vectors.CrossZero(u);
    assert Vectors.CrossProduct(u, Vectors.Zero) == Vectors.Zero;
    Vectors.ScaledZero(2.0 * q.w);
    Vectors.ScaledZero(2.0);
    Vectors.SumZero(axis);
  }

  /** A zero angle gives the identity when `sin 0 = 0` and `cos 0 = 1`. */
  lemma FromAxisAngleZero(lib: MathLib, axis: Vectors.V3)
    requires lib.sin(0.0) == 0.0 && lib.cos(0.0) == 1.0
    ensures FromAxisAngle(lib, axis, 0.0) == Identity
  {
  }

  // ---------------------------------------------------------------------
  // fromRotationMatrix

  /** The diagonal sum plus one that selects the first branch. */
  function Diagonal(p: seq<real>): real
    requires |p| == 16
  {
    p[0] + p[5] + p[10] + 1.0
  }

  /** Which of the four branches `fromRotationMatrix` takes. */
  datatype MatrixBranch = TraceBranch | XBranch | YBranch | ZBranch

  function BranchOf(p: seq<real>): (b: MatrixBranch)
    requires |p| == 16
    ensures b == TraceBranch <==> Diagonal(p) > Epsilon
    ensures b == XBranch <==> Diagonal(p) <= Epsilon && p[0] > p[5] && p[0] > p[10]
    ensures b == YBranch <==> Diagonal(p) <= Epsilon && !(p[0] > p[5] && p[0] > p[10]) && p[5] > p[10]
    ensures b == ZBranch <==> Diagonal(p) <= Epsilon && !(p[0] > p[5] && p[0] > p[10]) && !(p[5] > p[10])
  {
    if Diagonal(p) > Epsilon then TraceBranch
    else if p[0] > p[5] && p[0] > p[10] then XBranch
    else if p[5] > p[10] then YBranch
    else ZBranch
  }

  /** The number under the square root in each branch. On every branch it is
      positive, so the scale the branch divides by is never zero. */
  function Radicand(p: seq<real>): (d: real)
    requires |p| == 16
    ensures 0.0 < d
  {
    match BranchOf(p)
    case TraceBranch => Diagonal(p)
    case XBranch => 1.0 + p[0] - p[5] - p[10]
    case YBranch => 1.0 + p[5] - p[0] - p[10]
    case ZBranch => 1.0 + p[10] - p[0] - p[5]
  }

  /** `fromRotationMatrix`: Shepperd's extraction, branch by branch as the
      source writes it. `scale` is twice the square root of the branch's
      radicand, so it is positive and every division is defined. */
  function FromMatrix(lib: MathLib, m: Mat3): Quat
    requires SqrtLaws(lib.sqrt)
  {
    var p := Embedded(m);
    SqrtPositive(lib.sqrt, Radicand(p));
    var scale := lib.sqrt(Radicand(p)) * 2.0;
    match BranchOf(p)
    case TraceBranch =>
      Quat(0.25 * scale, (p[9] - p[6]) / scale, (p[2] - p[8]) / scale, (p[4] - p[1]) / scale)
    case XBranch =>
      Quat((p[9] - p[6]) / scale, 0.25 * scale, (p[4] + p[1]) / scale, (p[2] + p[8]) / scale)
    case YBranch =>
      Quat((p[2] - p[8]) / scale, (p[4] + p[1]) / scale, 0.25 * scale, (p[9] + p[6]) / scale)
    case ZBranch =>
      Quat((p[4] - p[1]) / scale, (p[2] + p[8]) / scale, (p[9] + p[6]) / scale, 0.25 * scale)
  }

  /** What each branch of `fromRotationMatrix` computes, stated as the
      relations Shepperd's method inverts: the component the branch selects is
      positive and four times its square is the radicand, and four times the
      selected component times each other component is the matching sum or
      difference of off-diagonal entries. These determine the result. */
  lemma FromMatrixBranches(lib: MathLib, m: Mat3)
    requires SqrtLaws(lib.sqrt)
    ensures var p, r := Embedded(m), FromMatrix(lib, m);
      match BranchOf(p)
      case TraceBranch =>
        0.0 < r.w && 4.0 * r.w * r.w == Radicand(p)
        && 4.0 * r.w * r.x == p[9] - p[6] && 4.0 * r.w * r.y == p[2] - p[8] && 4.0 * r.w * r.z == p[4] - p[1]
      case XBranch =>
        0.0 < r.x && 4.0 * r.x * r.x == Radicand(p)
        && 4.0 * r.x * r.w == p[9] - p[6] && 4.0 * r.x * r.y == p[4] + p[1] && 4.0 * r.x * r.z == p[2] + p[8]
      case YBranch =>
        0.0 < r.y && 4.0 * r.y * r.y == Radicand(p)
        && 4.0 * r.y * r.w == p[2] - p[8] && 4.0 * r.y * r.x == p[4] + p[1] && 4.0 * r.y * r.z == p[9] + p[6]
      case ZBranch =>
        0.0 < r.z && 4.0 * r.z * r.z == Radicand(p)
        && 4.0 * r.z * r.w == p[4] - p[1] && 4.0 * r.z * r.x == p[2] + p[8] && 4.0 * r.z * r.y == p[9] + p[6]
  {
    var p := Embedded(m);
    match BranchOf(p)
    case TraceBranch => FromMatrixTrace(lib, m, p);
    case XBranch => FromMatrixX(lib, m, p);
    case YBranch => FromMatrixY(lib, m, p);
    case ZBranch => FromMatrixZ(lib, m, p);
  }

  lemma FromMatrixTrace(lib: MathLib, m: Mat3, p: seq<real>)
    requires SqrtLaws(lib.sqrt)
    requires p == Embedded(m) && BranchOf(p) == TraceBranch
    ensures var r := FromMatrix(lib, m);
      0.0 < r.w && 4.0 * r.w * r.w == Radicand(p)
      && 4.0 * r.w * r.x == p[9] - p[6]
      && 4.0 * r.w * r.y == p[2] - p[8]
      && 4.0 * r.w * r.z == p[4] - p[1]
  {
    var d := Radicand(p);
    SqrtPositive(lib.sqrt, d);
    var scale := lib.sqrt(d) * 2.0;
    ScaleQuarter(lib.sqrt(d), scale, d);
    Quarter(scale, p[9] - p[6]);
    Quarter(scale, p[2] - p[8]);
    Quarter(scale, p[4] - p[1]);
  }

  lemma FromMatrixX(lib: MathLib, m: Mat3, p: seq<real>)
    requires SqrtLaws(lib.sqrt)
    requires p == Embedded(m) && BranchOf(p) == XBranch
    ensures var r := FromMatrix(lib, m);
      0.0 < r.x && 4.0 * r.x * r.x == Radicand(p)
      && 4.0 * r.x * r.w == p[9] - p[6]
      && 4.0 * r.x * r.y == p[4] + p[1]
      && 4.0 * r.x * r.z == p[2] + p[8]
  {
    var d := Radicand(p);
    SqrtPositive(lib.sqrt, d);
    var scale := lib.sqrt(d) * 2.0;
    ScaleQuarter(lib.sqrt(d), scale, d);
    Quarter(scale, p[9] - p[6]);
    Quarter(scale, p[4] + p[1]);
    Quarter(scale, p[2] + p[8]);
  }

  lemma FromMatrixY(lib: MathLib, m: Mat3, p: seq<real>)
    requires SqrtLaws(lib.sqrt)
    requires p == Embedded(m) && BranchOf(p) == YBranch
    ensures var r := FromMatrix(lib, m);
      0.0 < r.y && 4.0 * r.y * r.y == Radicand(p)
      && 4.0 * r.y * r.w == p[2] - p[8]
      && 4.0 * r.y * r.x == p[4] + p[1]
      && 4.0 * r.y * r.z == p[9] + p[6]
  {
    var d := Radicand(p);
    SqrtPositive(lib.sqrt, d);
    var scale := lib.sqrt(d) * 2.0;
    ScaleQuarter(lib.sqrt(d), scale, d);
    Quarter(scale, p[2] - p[8]);
    Quarter(scale, p[4] + p[1]);
    Quarter(scale, p[9] + p[6]);
  }

  lemma FromMatrixZ(lib: MathLib, m: Mat3, p: seq<real>)
    requires SqrtLaws(lib.sqrt)
    requires p == Embedded(m) && BranchOf(p) == ZBranch
    ensures var r := FromMatrix(lib, m);
      0.0 < r.z && 4.0 * r.z * r.z == Radicand(p)
      && 4.0 * r.z * r.w == p[4] - p[1]
      && 4.0 * r.z * r.x == p[2] + p[8]
      && 4.0 * r.z * r.y == p[9] + p[6]
  {
    var d := Radicand(p);
    SqrtPositive(lib.sqrt, d);
    var scale := lib.sqrt(d) * 2.0;
    ScaleQuarter(lib.sqrt(d), scale, d);
    Quarter(scale, p[4] - p[1]);
    Quarter(scale, p[2] + p[8]);
    Quarter(scale, p[9] + p[6]);
  }

  /** With `scale = 2 sqrt(d)`, the quarter scale is positive and four times
      its square is `d`. */
  lemma ScaleQuarter(root: real, scale: real, d: real)
    requires 0.0 < root && root * root == d && scale == root * 2.0
    ensures 0.0 < 0.25 * scale && 4.0 * (0.25 * scale) * (0.25 * scale) == d
  {
  }

  /** Four times the quarter scale cancels a division by the scale. */
  lemma Quarter(scale: real, a: real)
    requires scale != 0.0
    ensures 4.0 * (0.25 * scale) * (a / scale) == a
  {
  }

  /** The trace branch of `FromMatrix` in terms of the `scale` a caller
      computed from the embedded entries: positive, and the components it
      divides out. The three lemmas after it do the same for the others. */
  lemma FromMatrixTraceSteps(lib: MathLib, m: Mat3, p: seq<real>, scale: real)
    requires SqrtLaws(lib.sqrt)
    requires p == Embedded(m) && p[0] + p[5] + p[10] + 1.0 > Epsilon
    requires scale == lib.sqrt(p[0] + p[5] + p[10] + 1.0) * 2.0
    ensures 0.0 < scale
    ensures FromMatrix(lib, m)
         == Quat(0.25 * scale, (p[9] - p[6]) / scale, (p[2] - p[8]) / scale, (p[4] - p[1]) / scale)
  {
    var d := Radicand(p);
    assert d == p[0] + p[5] + p[10] + 1.0;
    SqrtPositive(lib.sqrt, d);
  }

  lemma FromMatrixXSteps(lib: MathLib, m: Mat3, p: seq<real>, scale: real)
    requires SqrtLaws(lib.sqrt)
    requires p == Embedded(m) && !(p[0] + p[5] + p[10] + 1.0 > Epsilon)
    requires p[0] > p[5] && p[0] > p[10]
    requires scale == lib.sqrt(1.0 + p[0] - p[5] - p[10]) * 2.0
    ensures 0.0 < scale
    ensures FromMatrix(lib, m)
         == Quat((p[9] - p[6]) / scale, 0.25 * scale, (p[4] + p[1]) / scale, (p[2] + p[8]) / scale)
  {
    var d := Radicand(p);
    assert d == 1.0 + p[0] - p[5] - p[10];
    SqrtPositive(lib.sqrt, d);
  }

  lemma FromMatrixYSteps(lib: MathLib, m: Mat3, p: seq<real>, scale: real)
    requires SqrtLaws(lib.sqrt)
    requires p == Embedded(m) && !(p[0] + p[5] + p[10] + 1.0 > Epsilon)
    requires !(p[0] > p[5] && p[0] > p[10]) && p[5] > p[10]
    requires scale == lib.sqrt(1.0 + p[5] - p[0] - p[10]) * 2.0
    ensures 0.0 < scale
    ensures FromMatrix(lib, m)
         == Quat((p[2] - p[8]) / scale, (p[4] + p[1]) / scale, 0.25 * scale, (p[9] + p[6]) / scale)
  {
    var d := Radicand(p);
    assert d == 1.0 + p[5] - p[0] - p[10];
    SqrtPositive(lib.sqrt, d);
  }

  lemma FromMatrixZSteps(lib: MathLib, m: Mat3, p: seq<real>, scale: real)
    requires SqrtLaws(lib.sqrt)
    requires p == Embedded(m) && !(p[0] + p[5] + p[10] + 1.0 > Epsilon)
    requires !(p[0] > p[5] && p[0] > p[10]) && !(p[5] > p[10])
    requires scale == lib.sqrt(1.0 + p[10] - p[0] - p[5]) * 2.0
    ensures 0.0 < scale
    ensures FromMatrix(lib, m)
         == Quat((p[4] - p[1]) / scale, (p[2] + p[8]) / scale, (p[9] + p[6]) / scale, 0.25 * scale)
  {
    var d := Radicand(p);
    assert d == 1.0 + p[10] - p[0] - p[5];
    SqrtPositive(lib.sqrt, d);
  }

  /** The identity matrix goes to the identity quaternion. */
  lemma FromMatrixIdentity(lib: MathLib)
    requires SqrtLaws(lib.sqrt)
    ensures FromMatrix(lib, Identity3) == Identity
  {
    SqrtIsRoot(lib.sqrt, 4.0, 2.0);
  }

  // ---------------------------------------------------------------------
  // fromYawPitchRoll

  /** The quaternion `fromYawPitchRoll` builds before it normalises, from
      the half-angle sines and cosines of pitch, yaw and roll. */
  function YawPitchRollRaw(lib: MathLib, yaw: real, pitch: real, roll: real): Quat {
    var cr, cp, cy := lib.cos(pitch * 0.5), lib.cos(yaw * 0.5), lib.cos(roll * 0.5);
    var sr, sp, sy := lib.sin(pitch * 0.5), lib.sin(yaw * 0.5), lib.sin(roll * 0.5);
    var cpcy, spsy := cp * cy, sp * sy;
    Quat(cr * cpcy + sr * spsy,
         sr * cpcy - cr * spsy,
         cr * sp * cy + sr * cp * sy,
         cr * cp * sy - sr * sp * cy)
  }

  /** `fromYawPitchRoll`: the raw quaternion, normalised. The source does
      not guard the normalisation, so the raw quaternion must not be zero. */
  function FromYawPitchRoll(lib: MathLib, yaw: real, pitch: real, roll: real): (r: Quat)
    requires SqrtLaws(lib.sqrt)
    requires YawPitchRollRaw(lib, yaw, pitch, roll) != Nil
    ensures LengthSquared(r) == 1.0
  {
    Normalized(lib, YawPitchRollRaw(lib, yaw, pitch, roll))
  }

  const XAxis: Vectors.V3 := Vectors.V3(1.0, 0.0, 0.0)
  const YAxis: Vectors.V3 := Vectors.V3(0.0, 1.0, 0.0)
  const ZAxis: Vectors.V3 := Vectors.V3(0.0, 0.0, 1.0)

  /** The three coordinate axes are unit vectors (one lemma each, so that
      each proof sees only its own axis). */
  lemma XAxisUnit()
    ensures Vectors.LengthSquared(XAxis) == 1.0
  {
  }

  lemma YAxisUnit()
    ensures Vectors.LengthSquared(YAxis) == 1.0
  {
  }

  lemma ZAxisUnit()
    ensures Vectors.LengthSquared(ZAxis) == 1.0
  {
  }

  /** The raw quaternion is the rotation by `roll` about z, composed with
      the rotation by `yaw` about y and then by `pitch` about x, whatever
      `sin` and `cos` return. */
  lemma YawPitchRollComposes(lib: MathLib, yaw: real, pitch: real, roll: real)
    ensures YawPitchRollRaw(lib, yaw, pitch, roll)
         == Product(Product(FromAxisAngle(lib, ZAxis, roll), FromAxisAngle(lib, YAxis, yaw)),
                    FromAxisAngle(lib, XAxis, pitch))
  {
    var cr, cp, cy := lib.cos(pitch * 0.5), lib.cos(yaw * 0.5), lib.cos(roll * 0.5);
    var sr, sp, sy := lib.sin(pitch * 0.5), lib.sin(yaw * 0.5), lib.sin(roll * 0.5);
    assert FromAxisAngle(lib, ZAxis, roll) == Quat(cy, 0.0, 0.0, sy);
    assert FromAxisAngle(lib, YAxis, yaw) == Quat(cp, 0.0, sp, 0.0);
    assert FromAxisAngle(lib, XAxis, pitch) == Quat(cr, sr, 0.0, 0.0);
    var zy := Product(Quat(cy, 0.0, 0.0, sy), Quat(cp, 0.0, sp, 0.0));
    assert zy == Quat(cy * cp, -(sy * sp), cy * sp, sy * cp);
    var l, r := Product(zy, Quat(cr, sr, 0.0, 0.0)), YawPitchRollRaw(lib, yaw, pitch, roll);
    assert l.w == r.w;
    assert l.x == r.x;
    assert l.y == r.y;
    assert l.z == r.z;
  }

  /** When `sin^2 + cos^2 = 1` at the three half angles, the raw quaternion
      is already a unit, so the normalisation changes nothing. */
  lemma FromYawPitchRollIsRaw(lib: MathLib, yaw: real, pitch: real, roll: real)
    requires SqrtLaws(lib.sqrt)
    requires Pythagorean(lib, yaw * 0.5) && Pythagorean(lib, pitch * 0.5) && Pythagorean(lib, roll * 0.5)
    ensures LengthSquared(YawPitchRollRaw(lib, yaw, pitch, roll)) == 1.0
    ensures FromYawPitchRoll(lib, yaw, pitch, roll) == YawPitchRollRaw(lib, yaw, pitch, roll)
  {
    RawIsUnit(lib, yaw, pitch, roll);
    Quaternions.NormalizedUnit(lib, YawPitchRollRaw(lib, yaw, pitch, roll));
  }

  lemma RawIsUnit(lib: MathLib, yaw: real, pitch: real, roll: real)
    requires Pythagorean(lib, yaw * 0.5) && Pythagorean(lib, pitch * 0.5) && Pythagorean(lib, roll * 0.5)
    ensures LengthSquared(YawPitchRollRaw(lib, yaw, pitch, roll)) == 1.0
  {
    XAxisUnit();
    YAxisUnit();
    ZAxisUnit();
    FromAxisAngleUnit(lib, ZAxis, roll);
    FromAxisAngleUnit(lib, YAxis, yaw);
    FromAxisAngleUnit(lib, XAxis, pitch);
    UnitProducts(FromAxisAngle(lib, ZAxis, roll), FromAxisAngle(lib, YAxis, yaw), FromAxisAngle(lib, XAxis, pitch));
    YawPitchRollComposes(lib, yaw, pitch, roll);
  }

  lemma UnitProducts(a: Quat, b: Quat, c: Quat)
    requires LengthSquared(a) == 1.0 && LengthSquared(b) == 1.0 && LengthSquared(c) == 1.0
    ensures LengthSquared(Product(Product(a, b), c)) == 1.0
  {
    UnitProduct(a, b);
    UnitProduct(Product(a, b), c);
  }

  /** The product of two unit quaternions is a unit quaternion. */
  lemma UnitProduct(p: Quat, q: Quat)
    requires LengthSquared(p) == 1.0 && LengthSquared(q) == 1.0
    ensures LengthSquared(Product(p, q)) == 1.0
  {
    ProductLengthSquared(p, q);
  }

  // ---------------------------------------------------------------------
  // toAxisAngle

  datatype AxisAngle = AxisAngle(axis: Vectors.V3, angle: real)

  /** The condition `toAxisAngle` checks on the length of the vector part before
      dividing by it: too short, or within the tolerance of `2 pi`. */
  predicate NoRotation(lib: MathLib, scale: real) {
    Abs(scale) < Epsilon || (scale < 2.0 * lib.pi + Epsilon && scale > 2.0 * lib.pi - Epsilon)
  }

  /** `toAxisAngle`: the angle `2 acos(w)` and the vector part divided by its
      length, then normalised; on the degenerate condition, angle zero about z.
      The axis is a unit vector either way, and otherwise it points along the
      vector part. */
  function ToAxisAngle(lib: MathLib, q: Quat): (r: AxisAngle)
    requires SqrtLaws(lib.sqrt)
    ensures Vectors.LengthSquared(r.axis) == 1.0
    ensures NoRotation(lib, Vectors.Length(lib, VectorPart(q))) ==> r == AxisAngle(ZAxis, 0.0)
    ensures !NoRotation(lib, Vectors.Length(lib, VectorPart(q))) ==>
      r.angle == lib.acos(q.w) * 2.0
      && Vectors.Scaled(r.axis, Vectors.Length(lib, VectorPart(q))) == VectorPart(q)
  {
    var tempAngle := lib.acos(q.w);
    var scale := Vectors.Length(lib, VectorPart(q));
    if NoRotation(lib, scale) then
      AxisAngle(ZAxis, 0.0)
    else
      var axis := Vectors.Divided(VectorPart(q), scale);
      Vectors.DividedByLength(lib, VectorPart(q), scale);
      Vectors.NormalizedUnit(lib, axis);
      AxisAngle(Vectors.Normalized(lib, axis), tempAngle * 2.0)
  }

  // ---------------------------------------------------------------------
  // slerp

  /** `slerp`: a copy of `q1` when the two are equal component by component;
      otherwise `q1 sin((1 - t) theta) / sin(theta) + q2 sin(t theta) /
      sin(theta)`, with `theta = acos(q1 . q2)` and `sin(theta)` taken as
      `sqrt(1 - (q1 . q2)^2)`. The source does not guard that division, so
      it must not be by zero. */
  function Slerp(lib: MathLib, q1: Quat, q2: Quat, t: real): Quat
    requires q1 != q2 ==> SineOfAngle(lib, Dot(q1, q2)) != 0.0
  {
    if q1.w == q2.w && q1.x == q2.x && q1.y == q2.y && q1.z == q2.z then
      Quat(q1.w, q1.x, q1.y, q1.z)
    else
      var ct := Dot(q1, q2);
      var theta := lib.acos(ct);
      var st := SineOfAngle(lib, ct);
      Sum(Scaled(q1, SlerpWeight(lib, theta, st, 1.0 - t)), Scaled(q2, SlerpWeight(lib, theta, st, t)))
  }

  /** The weight `sin(s theta) / st` of one end, where `st` stands for
      `sin(theta)`. */
  function SlerpWeight(lib: MathLib, theta: real, st: real, s: real): real
    requires st != 0.0
  {
    lib.sin(s * theta) / st
  }

  /** `SlerpWeight` of both ends written out, for a caller that computes
      them in steps. */
  lemma SlerpWeightSteps(lib: MathLib, theta: real, st: real, s: real)
    requires st != 0.0
    ensures lib.sin(s * theta) / st == SlerpWeight(lib, theta, st, s)
    ensures lib.sin((1.0 - s) * theta) / st == SlerpWeight(lib, theta, st, 1.0 - s)
  {
  }

  /** `sqrt(1 - c^2)`, the sine of the angle whose cosine is `c`. */
  function SineOfAngle(lib: MathLib, c: real): real {
    lib.sqrt(1.0 - c * c)
  }

  /** Interpolating between a quaternion and itself gives it back, for every
      `t`. */
  lemma SlerpSame(lib: MathLib, q: Quat, t: real)
    ensures Slerp(lib, q, q, t) == q
  {
  }

  /** The two ends of the interpolation, when `sin 0 = 0` and `sin(acos c)`
      is the `sqrt(1 - c^2)` the source divides by: `t = 0` gives `q1`. */
  lemma SlerpStart(lib: MathLib, q1: Quat, q2: Quat)
    requires q1 != q2
    requires SineOfAngle(lib, Dot(q1, q2)) != 0.0
    requires lib.sin(0.0) == 0.0
    requires lib.sin(lib.acos(Dot(q1, q2))) == SineOfAngle(lib, Dot(q1, q2))
    ensures Slerp(lib, q1, q2, 0.0) == q1
  {
    var theta, st := lib.acos(Dot(q1, q2)), SineOfAngle(lib, Dot(q1, q2));
    assert SlerpWeight(lib, theta, st, 0.0) == 0.0;
    assert SlerpWeight(lib, theta, st, 1.0 - 0.0) == 1.0;
    assert Slerp(lib, q1, q2, 0.0) == Sum(Scaled(q1, 1.0), Scaled(q2, 0.0));
  }

  /** ... and `t = 1` gives `q2`. */
  lemma SlerpEnd(lib: MathLib, q1: Quat, q2: Quat)
    requires q1 != q2
    requires SineOfAngle(lib, Dot(q1, q2)) != 0.0
    requires lib.sin(0.0) == 0.0
    requires lib.sin(lib.acos(Dot(q1, q2))) == SineOfAngle(lib, Dot(q1, q2))
    ensures Slerp(lib, q1, q2, 1.0) == q2
  {
    var theta, st := lib.acos(Dot(q1, q2)), SineOfAngle(lib, Dot(q1, q2));
    assert SlerpWeight(lib, theta, st, 1.0) == 1.0;
    assert SlerpWeight(lib, theta, st, 1.0 - 1.0) == 0.0;
    assert Slerp(lib, q1, q2, 1.0) == Sum(Scaled(q1, 0.0), Scaled(q2, 1.0));
  }

  // ---------------------------------------------------------------------
  // fromRotationBetweenVec3

  /** Below this, the normalised directions count as opposite. */
  const OppositeBound: real := 0.000001 - 1.0

  /** The cosine of the angle between two directions: the dot product of
      their normalised copies. */
  function Alignment(lib: MathLib, vec1: Vectors.V3, vec2: Vectors.V3): real
    requires SqrtLaws(lib.sqrt)
    requires 0.0 < Vectors.LengthSquared(vec1) && 0.0 < Vectors.LengthSquared(vec2)
  {
    Vectors.Dot(Vectors.Normalized(lib, vec1), Vectors.Normalized(lib, vec2))
  }

  /** The alignment is a cosine: it lies between -1 and 1. */
  lemma AlignmentBounded(lib: MathLib, vec1: Vectors.V3, vec2: Vectors.V3)
    requires SqrtLaws(lib.sqrt)
    requires 0.0 < Vectors.LengthSquared(vec1) && 0.0 < Vectors.LengthSquared(vec2)
    ensures -1.0 <= Alignment(lib, vec1, vec2) <= 1.0
  {
    var n1, n2 := Vectors.Normalized(lib, vec1), Vectors.Normalized(lib, vec2);
    var a := Vectors.Dot(n1, n2);
    var c := Vectors.CrossProduct(n1, n2);
    Vectors.CrossLengthSquared(n1, n2);
    UnitProductMinusSquare(Vectors.LengthSquared(c), Vectors.LengthSquared(n1), Vectors.LengthSquared(n2), a);
    SquareAtMostOne(a);
  }

  lemma SquareAtMostOne(a: real)
    requires a * a <= 1.0
    ensures -1.0 <= a <= 1.0
  {
    if a > 1.0 {
      assert a * a > a * 1.0;
    } else if a < -1.0 {
      assert a * a > a * -1.0;
    }
  }

  /** The `a >= 1` branch is taken exactly when the two vectors point the
      same way: their normalised copies are equal. */
  lemma AlignedExactly(lib: MathLib, vec1: Vectors.V3, vec2: Vectors.V3)
    requires SqrtLaws(lib.sqrt)
    requires 0.0 < Vectors.LengthSquared(vec1) && 0.0 < Vectors.LengthSquared(vec2)
    ensures Alignment(lib, vec1, vec2) >= 1.0 <==> Vectors.Normalized(lib, vec1) == Vectors.Normalized(lib, vec2)
  {
    var n1, n2 := Vectors.Normalized(lib, vec1), Vectors.Normalized(lib, vec2);
    if n1 == n2 {
      Vectors.DotSelf(n1);
    } else {
      var d := Vectors.V3(n1.x - n2.x, n1.y - n2.y, n1.z - n2.z);
      assert d != Vectors.Zero;
      DifferenceLengthSquared(n1, n2);
      UnitDifference(Vectors.LengthSquared(d), Vectors.LengthSquared(n1), Vectors.LengthSquared(n2), Vectors.Dot(n1, n2));
    }
  }

  /** `|u - v|^2 = |u|^2 + |v|^2 - 2 u . v`. */
  lemma DifferenceLengthSquared(u: Vectors.V3, v: Vectors.V3)
    ensures Vectors.LengthSquared(Vectors.V3(u.x - v.x, u.y - v.y, u.z - v.z))
         == Vectors.LengthSquared(u) + Vectors.LengthSquared(v) - 2.0 * Vectors.Dot(u, v)
  {
  }

  lemma UnitDifference(dd: real, n1: real, n2: real, a: real)
    requires 0.0 < dd && n1 == 1.0 && n2 == 1.0 && dd == n1 + n2 - 2.0 * a
    ensures a < 1.0
  {
  }

  /** The axis of the half turn for opposite directions when the fallback is
      not taken: `(1, 0, 0) x vec1`, or `(0, 1, 0) x vec1` when the first is
      shorter than the tolerance. `vec1` is the caller's vector as given, not
      its normalised copy. */
  function PerpendicularAxis(vec1: Vectors.V3): Vectors.V3 {
    var axis := Vectors.CrossProduct(XAxis, vec1);
    if Abs(Vectors.LengthSquared(axis)) < Epsilon then Vectors.CrossProduct(YAxis, vec1) else axis
  }

  /** `fromRotationBetweenVec3`: the identity for directions already
      aligned, `OppositeTurn` for opposite ones and `BetweenTurn` of the
      normalised directions in between. The source normalises `vec1` and
      `vec2` without guards, so neither may be zero. */
  function FromVectors(lib: MathLib, vec1: Vectors.V3, vec2: Vectors.V3, fallback: Vectors.V3): (r: Quat)
    requires SqrtLaws(lib.sqrt)
    requires 0.0 < Vectors.LengthSquared(vec1) && 0.0 < Vectors.LengthSquared(vec2)
    requires Alignment(lib, vec1, vec2) < OppositeBound && !(Abs(Vectors.LengthSquared(fallback)) < Epsilon)
             ==> 0.0 < Vectors.LengthSquared(PerpendicularAxis(vec1))
    ensures OppositeBound <= Alignment(lib, vec1, vec2) < 1.0 ==> LengthSquared(r) == 1.0
  {
    var a := Alignment(lib, vec1, vec2);
    if a >= 1.0 then
      Identity
    else if a < OppositeBound then
      OppositeTurn(lib, vec1, fallback)
    else
      BetweenTurn(lib, Vectors.Normalized(lib, vec1), Vectors.Normalized(lib, vec2))
  }

  /** The half turn for opposite directions, as written: about `fallback`
      when its squared length is below the tolerance, otherwise about the
      normalised perpendicular axis of `vec1`, which the source normalises
      without a guard, so it must not be zero. */
  function OppositeTurn(lib: MathLib, vec1: Vectors.V3, fallback: Vectors.V3): Quat
    requires SqrtLaws(lib.sqrt)
    requires !(Abs(Vectors.LengthSquared(fallback)) < Epsilon) ==> 0.0 < Vectors.LengthSquared(PerpendicularAxis(vec1))
  {
    if Abs(Vectors.LengthSquared(fallback)) < Epsilon then
      FromAxisAngle(lib, fallback, lib.pi)
    else
      FromAxisAngle(lib, Vectors.Normalized(lib, PerpendicularAxis(vec1)), lib.pi)
  }

  /** The turn between two directions that are not opposite: the normalised
      `(sqrt(2 (1 + a)) / 2, (v1 x v2) / sqrt(2 (1 + a)))` with `a = v1 . v2`,
      always a unit quaternion. */
  function BetweenTurn(lib: MathLib, v1: Vectors.V3, v2: Vectors.V3): (r: Quat)
    requires SqrtLaws(lib.sqrt)
    requires OppositeBound <= Vectors.Dot(v1, v2)
    ensures LengthSquared(r) == 1.0
  {
    var s := HalfwayScale(lib, Vectors.Dot(v1, v2));
    Normalized(lib, Halfway(s, 1.0 / s, Vectors.CrossProduct(v1, v2)))
  }

  /** The quaternion `(s / 2, c invs)` that `BetweenTurn` normalises; not
      zero when `s` is not. */
  function Halfway(s: real, invs: real, c: Vectors.V3): (q: Quat)
    ensures s != 0.0 ==> q != Nil
  {
    Quat(s * 0.5, c.x * invs, c.y * invs, c.z * invs)
  }

  /** `sqrt(2 (1 + a))`, positive for every `a` above `-1`. */
  function HalfwayScale(lib: MathLib, a: real): (s: real)
    requires SqrtLaws(lib.sqrt)
    requires OppositeBound <= a
    ensures 0.0 < s
  {
    SqrtPositive(lib.sqrt, (1.0 + a) * 2.0);
    lib.sqrt((1.0 + a) * 2.0)
  }

  /** `BetweenTurn` in terms of the numbers a caller computed in steps: the
      dot product `a`, `s = sqrt(2 (1 + a))`, its reciprocal and the three
      components of the cross product. */
  lemma BetweenTurnSteps(lib: MathLib, v1: Vectors.V3, v2: Vectors.V3, a: real, s: real, invs: real,
                         cx: real, cy: real, cz: real)
    requires SqrtLaws(lib.sqrt)
    requires a == Vectors.Dot(v1, v2) && OppositeBound <= a
    requires s == lib.sqrt((1.0 + a) * 2.0) && 0.0 < s && invs == 1.0 / s
    requires Vectors.V3(cx, cy, cz) == Vectors.CrossProduct(v1, v2)
    ensures BetweenTurn(lib, v1, v2) == Normalized(lib, Quat(s * 0.5, cx * invs, cy * invs, cz * invs))
  {
    assert s == HalfwayScale(lib, a);
    HalfwayParts(s, invs, Vectors.CrossProduct(v1, v2), cx, cy, cz);
  }

  lemma HalfwayParts(s: real, invs: real, c: Vectors.V3, cx: real, cy: real, cz: real)
    requires Vectors.V3(cx, cy, cz) == c
    ensures Halfway(s, invs, c) == Quat(s * 0.5, cx * invs, cy * invs, cz * invs)
  {
  }

  /** The shortest-arc quaternion `(1 + v1 . v2, v1 x v2)` before scaling;
      `BetweenTurn` divides it by `sqrt(2 (1 + v1 . v2))`. */
  function Arc(v1: Vectors.V3, v2: Vectors.V3): Quat {
    var c := Vectors.CrossProduct(v1, v2);
    Quat(1.0 + Vectors.Dot(v1, v2), c.x, c.y, c.z)
  }

  /** For unit `v1` and `v2`, `Arc(v1, v2) (0 + v1) = (0 + v2) Arc(v1, v2)`:
      both sides are `0 + (v1 + v2)`. */
  lemma ArcTurns(v1: Vectors.V3, v2: Vectors.V3)
    requires Vectors.LengthSquared(v1) == 1.0 && Vectors.LengthSquared(v2) == 1.0
    ensures Product(Arc(v1, v2), Pure(v1)) == Product(Pure(v2), Arc(v1, v2))
  {
    ArcTurnsW(v1, v2);
    ArcTurnsX(v1, v2);
    ArcTurnsY(v1, v2);
    ArcTurnsZ(v1, v2);
  }

  lemma ArcTurnsW(v1: Vectors.V3, v2: Vectors.V3)
    ensures Product(Arc(v1, v2), Pure(v1)).w == Product(Pure(v2), Arc(v1, v2)).w
  {
    var p := Arc(v1, v2);
    ArcFields(v1, v2);
    ArcScalar(v1.x, v1.y, v1.z, v2.x, v2.y, v2.z, p.x, p.y, p.z);
    ProductPureRight(p, v1);
    ProductPureLeft(v2, p);
  }

  lemma ArcTurnsX(v1: Vectors.V3, v2: Vectors.V3)
    requires Vectors.LengthSquared(v1) == 1.0 && Vectors.LengthSquared(v2) == 1.0
    ensures Product(Arc(v1, v2), Pure(v1)).x == Product(Pure(v2), Arc(v1, v2)).x
  {
    var p := Arc(v1, v2);
    ArcFields(v1, v2);
    ArcRowX(v1, v2, p);
    ProductPureRight(p, v1);
    ProductPureLeft(v2, p);
  }

  lemma ArcTurnsY(v1: Vectors.V3, v2: Vectors.V3)
    requires Vectors.LengthSquared(v1) == 1.0 && Vectors.LengthSquared(v2) == 1.0
    ensures Product(Arc(v1, v2), Pure(v1)).y == Product(Pure(v2), Arc(v1, v2)).y
  {
    var p := Arc(v1, v2);
    ArcFields(v1, v2);
    ArcRowY(v1, v2, p);
    ProductPureRight(p, v1);
    ProductPureLeft(v2, p);
  }

  lemma ArcTurnsZ(v1: Vectors.V3, v2: Vectors.V3)
    requires Vectors.LengthSquared(v1) == 1.0 && Vectors.LengthSquared(v2) == 1.0
    ensures Product(Arc(v1, v2), Pure(v1)).z == Product(Pure(v2), Arc(v1, v2)).z
  {
    var p := Arc(v1, v2);
    ArcFields(v1, v2);
    ArcRowZ(v1, v2, p);
    ProductPureRight(p, v1);
    ProductPureLeft(v2, p);
  }

  lemma ArcFields(v1: Vectors.V3, v2: Vectors.V3)
    ensures Arc(v1, v2).w == 1.0 + (v1.x * v2.x + v1.y * v2.y + v1.z * v2.z)
    ensures Arc(v1, v2).x == v1.y * v2.z - v1.z * v2.y && Arc(v1, v2).y == v1.z * v2.x - v1.x * v2.z
    ensures Arc(v1, v2).z == v1.x * v2.y - v1.y * v2.x
  {
  }

  lemma ArcRowX(v1: Vectors.V3, v2: Vectors.V3, p: Quat)
    requires v1.x * v1.x + v1.y * v1.y + v1.z * v1.z == 1.0 && v2.x * v2.x + v2.y * v2.y + v2.z * v2.z == 1.0
    requires p.w == 1.0 + (v1.x * v2.x + v1.y * v2.y + v1.z * v2.z)
    requires p.x == v1.y * v2.z - v1.z * v2.y && p.y == v1.z * v2.x - v1.x * v2.z && p.z == v1.x * v2.y - v1.y * v2.x
    ensures p.w * v1.x + p.y * v1.z - p.z * v1.y == v2.x * p.w + v2.y * p.z - v2.z * p.y
  {
    ArcRow(v1.x, v1.y, v1.z, v2.x, v2.y, v2.z, p.w, p.y, p.z);
  }

  lemma ArcRowY(v1: Vectors.V3, v2: Vectors.V3, p: Quat)
    requires v1.x * v1.x + v1.y * v1.y + v1.z * v1.z == 1.0 && v2.x * v2.x + v2.y * v2.y + v2.z * v2.z == 1.0
    requires p.w == 1.0 + (v1.x * v2.x + v1.y * v2.y + v1.z * v2.z)
    requires p.x == v1.y * v2.z - v1.z * v2.y && p.y == v1.z * v2.x - v1.x * v2.z && p.z == v1.x * v2.y - v1.y * v2.x
    ensures p.w * v1.y + p.z * v1.x - p.x * v1.z == v2.y * p.w + v2.z * p.x - v2.x * p.z
  {
    ArcRow(v1.y, v1.z, v1.x, v2.y, v2.z, v2.x, p.w, p.z, p.x);
  }

  lemma ArcRowZ(v1: Vectors.V3, v2: Vectors.V3, p: Quat)
    requires v1.x * v1.x + v1.y * v1.y + v1.z * v1.z == 1.0 && v2.x * v2.x + v2.y * v2.y + v2.z * v2.z == 1.0
    requires p.w == 1.0 + (v1.x * v2.x + v1.y * v2.y + v1.z * v2.z)
    requires p.x == v1.y * v2.z - v1.z * v2.y && p.y == v1.z * v2.x - v1.x * v2.z && p.z == v1.x * v2.y - v1.y * v2.x
    ensures p.w * v1.z + p.x * v1.y - p.y * v1.x == v2.z * p.w + v2.x * p.y - v2.y * p.x
  {
    ArcRow(v1.z, v1.x, v1.y, v2.z, v2.x, v2.y, p.w, p.x, p.y);
  }

  /** The scalar parts of `Arc (0 + v1)` and `(0 + v2) Arc` both vanish. */
  lemma ArcScalar(x1: real, y1: real, z1: real, x2: real, y2: real, z2: real, px: real, py: real, pz: real)
    requires px == y1 * z2 - z1 * y2 && py == z1 * x2 - x1 * z2 && pz == x1 * y2 - y1 * x2
    ensures -(px * x1) - py * y1 - pz * z1 == -(x2 * px) - y2 * py - z2 * pz
  {
  }

  /** One vector component of `Arc (0 + v1)` and of `(0 + v2) Arc`, for
      unit `v1` and `v2`: both are `x1 + x2`. The other components are its
      cyclic shifts. */
  lemma ArcRow(x1: real, y1: real, z1: real, x2: real, y2: real, z2: real, pw: real, py: real, pz: real)
    requires x1 * x1 + y1 * y1 + z1 * z1 == 1.0 && x2 * x2 + y2 * y2 + z2 * z2 == 1.0
    requires pw == 1.0 + (x1 * x2 + y1 * y2 + z1 * z2)
    requires py == z1 * x2 - x1 * z2 && pz == x1 * y2 - y1 * x2
    ensures pw * x1 + py * z1 - pz * y1 == x2 * pw + y2 * pz - z2 * py
  {
    ArcRowExpanded(x1, y1, z1, x2, y2, z2, pw, py, pz);
    UnitTimes(x1 * x1 + y1 * y1 + z1 * z1, x2);
    UnitTimes(x2 * x2 + y2 * y2 + z2 * z2, x1);
  }

  lemma UnitTimes(n: real, x: real)
    requires n == 1.0
    ensures n * x == x
  {
  }

  /** One vector component of `Arc (0 + v1)` and of `(0 + v2) Arc`:
      `x1 + (v1 . v1) x2` and `x2 + (v2 . v2) x1`. */
  lemma ArcRowExpanded(x1: real, y1: real, z1: real, x2: real, y2: real, z2: real, pw: real, py: real, pz: real)
    requires pw == 1.0 + (x1 * x2 + y1 * y2 + z1 * z2)
    requires py == z1 * x2 - x1 * z2 && pz == x1 * y2 - y1 * x2
    ensures pw * x1 + py * z1 - pz * y1 == x1 + (x1 * x1 + y1 * y1 + z1 * z1) * x2
    ensures x2 * pw + y2 * pz - z2 * py == x2 + (x2 * x2 + y2 * y2 + z2 * z2) * x1
  {
  }

  /** For unit `v1` and `v2`, `Arc(v1, v2)` has squared length `2 (1 + v1 . v2)`. */
  lemma ArcLengthSquared(v1: Vectors.V3, v2: Vectors.V3)
    requires Vectors.LengthSquared(v1) == 1.0 && Vectors.LengthSquared(v2) == 1.0
    ensures LengthSquared(Arc(v1, v2)) == (1.0 + Vectors.Dot(v1, v2)) * 2.0
  {
    var c := Vectors.CrossProduct(v1, v2);
    Vectors.CrossLengthSquared(v1, v2);
    UnitProductMinusSquare(Vectors.LengthSquared(c), Vectors.LengthSquared(v1), Vectors.LengthSquared(v2),
                           Vectors.Dot(v1, v2));
    ArcNorm(Arc(v1, v2), c, Vectors.Dot(v1, v2));
  }

  lemma UnitProductMinusSquare(cc: real, n1: real, n2: real, a: real)
    requires n1 == 1.0 && n2 == 1.0 && cc == n1 * n2 - a * a
    ensures cc == 1.0 - a * a
  {
  }

  lemma ArcNorm(p: Quat, c: Vectors.V3, a: real)
    requires p == Quat(1.0 + a, c.x, c.y, c.z)
    requires Vectors.LengthSquared(c) == 1.0 - a * a
    ensures LengthSquared(p) == (1.0 + a) * 2.0
  {
  }

  /** The quaternion `BetweenTurn` normalises is `Arc(v1, v2) / s`, with
      `s = sqrt(2 (1 + v1 . v2))`. */
  lemma HalfwayIsArc(lib: MathLib, v1: Vectors.V3, v2: Vectors.V3)
    requires SqrtLaws(lib.sqrt)
    requires OppositeBound <= Vectors.Dot(v1, v2)
    ensures var s := HalfwayScale(lib, Vectors.Dot(v1, v2));
            Halfway(s, 1.0 / s, Vectors.CrossProduct(v1, v2)) == Scaled(Arc(v1, v2), 1.0 / s)
  {
    var a := Vectors.Dot(v1, v2);
    var s := HalfwayScale(lib, a);
    assert s * s == (1.0 + a) * 2.0;
    HalfOfRoot(s, a);
    HalfwayOfArc(Arc(v1, v2), Vectors.CrossProduct(v1, v2), a, s, 1.0 / s);
  }

  lemma HalfwayOfArc(p: Quat, c: Vectors.V3, a: real, s: real, k: real)
    requires p == Quat(1.0 + a, c.x, c.y, c.z)
    requires s * 0.5 == (1.0 + a) * k
    ensures Halfway(s, k, c) == Scaled(p, k)
  {
  }

  lemma HalfOfRoot(s: real, a: real)
    requires 0.0 < s && s * s == (1.0 + a) * 2.0
    ensures s * 0.5 == (1.0 + a) * (1.0 / s)
  {
    assert (1.0 + a) * (1.0 / s) * s == 1.0 + a;
  }

  /** `Arc(v1, v2) / s` is a unit quaternion when `s * s` is the squared
      length of `Arc(v1, v2)`. */
  lemma ScaledArcUnit(v1: Vectors.V3, v2: Vectors.V3, s: real)
    requires Vectors.LengthSquared(v1) == 1.0 && Vectors.LengthSquared(v2) == 1.0
    requires 0.0 < s && s * s == (1.0 + Vectors.Dot(v1, v2)) * 2.0
    ensures LengthSquared(Scaled(Arc(v1, v2), 1.0 / s)) == 1.0
  {
    ArcLengthSquared(v1, v2);
    Quaternions.LengthSquaredScaled(Arc(v1, v2), 1.0 / s);
    InverseSquare(s, 1.0 / s, LengthSquared(Arc(v1, v2)));
  }

  lemma InverseSquare(s: real, k: real, m: real)
    requires s != 0.0 && k == 1.0 / s && m == s * s
    ensures k * k * m == 1.0
  {
    assert k * s == 1.0;
  }

  /** The main promise of the turn between two unit directions that are not
      opposite: it rotates `v1` onto `v2`. */
  lemma BetweenTurnAligns(lib: MathLib, v1: Vectors.V3, v2: Vectors.V3)
    requires SqrtLaws(lib.sqrt)
    requires Vectors.LengthSquared(v1) == 1.0 && Vectors.LengthSquared(v2) == 1.0
    requires OppositeBound <= Vectors.Dot(v1, v2)
    ensures Rotate(BetweenTurn(lib, v1, v2), v1) == v2
  {
    var a := Vectors.Dot(v1, v2);
    var s := HalfwayScale(lib, a);
    var r := Scaled(Arc(v1, v2), 1.0 / s);
    HalfwayIsArc(lib, v1, v2);
    assert s * s == (1.0 + a) * 2.0;
    ScaledArcUnit(v1, v2, s);
    NormalizedUnit(lib, r);
    assert BetweenTurn(lib, v1, v2) == r;
    ArcTurns(v1, v2);
    IntertwinedScaled(Arc(v1, v2), v1, v2, 1.0 / s);
    RotateIntertwined(r, v1, v2);
  }

  /** What `fromRotationBetweenVec3` does to the direction `n1` of `vec1`:
      for directions that are neither aligned nor opposite it turns `n1`
      onto the direction of `vec2`; for opposite directions and a fallback
      that is not short it reverses `n1`, by a half turn about the
      normalised perpendicular axis of `vec1`. */
  lemma FromVectorsTurns(lib: MathLib, vec1: Vectors.V3, vec2: Vectors.V3, fallback: Vectors.V3)
    requires SqrtLaws(lib.sqrt)
    requires 0.0 < Vectors.LengthSquared(vec1) && 0.0 < Vectors.LengthSquared(vec2)
    requires Alignment(lib, vec1, vec2) < OppositeBound && !(Abs(Vectors.LengthSquared(fallback)) < Epsilon)
             ==> 0.0 < Vectors.LengthSquared(PerpendicularAxis(vec1))
    ensures OppositeBound <= Alignment(lib, vec1, vec2) < 1.0 ==>
              Rotate(FromVectors(lib, vec1, vec2, fallback), Vectors.Normalized(lib, vec1))
              == Vectors.Normalized(lib, vec2)
    ensures Alignment(lib, vec1, vec2) < OppositeBound && !(Abs(Vectors.LengthSquared(fallback)) < Epsilon)
            && QuarterTurn(lib) ==>
              Rotate(FromVectors(lib, vec1, vec2, fallback), Vectors.Normalized(lib, vec1))
              == Vectors.Negated(Vectors.Normalized(lib, vec1))
  {
    var a := Alignment(lib, vec1, vec2);
    var n1, n2 := Vectors.Normalized(lib, vec1), Vectors.Normalized(lib, vec2);
    if OppositeBound <= a < 1.0 {
      BetweenTurnAligns(lib, n1, n2);
    } else if a < OppositeBound && !(Abs(Vectors.LengthSquared(fallback)) < Epsilon) && QuarterTurn(lib) {
      var p := PerpendicularAxis(vec1);
      var axis := Vectors.Normalized(lib, p);
      PerpendicularAxisOrthogonal(vec1);
      NormalizedOrthogonal(lib, p, vec1);
      Vectors.DotSymmetric(axis, vec1);
      NormalizedOrthogonal(lib, vec1, axis);
      Vectors.DotSymmetric(n1, axis);
      HalfTurnReverses(lib, axis, n1);
    }
  }

  /** The perpendicular axis of `vec1` is orthogonal to it. */
  lemma PerpendicularAxisOrthogonal(vec1: Vectors.V3)
    ensures Vectors.Dot(PerpendicularAxis(vec1), vec1) == 0.0
  {
    Vectors.CrossOrthogonal(XAxis, vec1);
    Vectors.CrossOrthogonal(YAxis, vec1);
  }

  /** Two directions that are positive multiples of each other are aligned,
      and give the identity. */
  lemma FromVectorsParallel(lib: MathLib, vec1: Vectors.V3, k: real, fallback: Vectors.V3)
    requires SqrtLaws(lib.sqrt)
    requires 0.0 < Vectors.LengthSquared(vec1) && 0.0 < k
    ensures 0.0 < Vectors.LengthSquared(Vectors.Scaled(vec1, k))
    ensures Alignment(lib, vec1, Vectors.Scaled(vec1, k)) == 1.0
    ensures FromVectors(lib, vec1, Vectors.Scaled(vec1, k), fallback) == Identity
  {
    NormalizedScaled(lib, vec1, k);
    Vectors.DotSelf(Vectors.Normalized(lib, vec1));
  }

  /** Normalising a positive multiple of a vector is normalising the vector. */
  lemma NormalizedScaled(lib: MathLib, a: Vectors.V3, k: real)
    requires SqrtLaws(lib.sqrt)
    requires 0.0 < Vectors.LengthSquared(a) && 0.0 < k
    ensures 0.0 < Vectors.LengthSquared(Vectors.Scaled(a, k))
    ensures Vectors.Normalized(lib, Vectors.Scaled(a, k)) == Vectors.Normalized(lib, a)
  {
    var b := Vectors.Scaled(a, k);
    LengthScaled(lib, a, k);
    var l, lb := Vectors.Length(lib, a), Vectors.Length(lib, b);
    assert Vectors.Normalized(lib, a) == Vectors.Divided(a, l);
    assert Vectors.Normalized(lib, b) == Vectors.Divided(b, lb);
    DividedScaled(a, k, l, lb);
  }

  /** Dividing `a k` by `k l` is dividing `a` by `l`. */
  lemma DividedScaled(a: Vectors.V3, k: real, l: real, lb: real)
    requires k != 0.0 && l != 0.0 && lb == k * l
    ensures lb != 0.0 && Vectors.Divided(Vectors.Scaled(a, k), lb) == Vectors.Divided(a, l)
  {
    Vectors.ScaledBy(a, k, k);
    CancelCommon(a.x, k, l, lb);
    CancelCommon(a.y, k, l, lb);
    CancelCommon(a.z, k, l, lb);
  }

  /** The length of a positive multiple. */
  lemma LengthScaled(lib: MathLib, a: Vectors.V3, k: real)
    requires SqrtLaws(lib.sqrt)
    requires 0.0 < Vectors.LengthSquared(a) && 0.0 < k
    ensures 0.0 < Vectors.LengthSquared(Vectors.Scaled(a, k))
    ensures 0.0 < Vectors.Length(lib, a)
    ensures Vectors.Length(lib, Vectors.Scaled(a, k)) == k * Vectors.Length(lib, a)
  {
    var ls := Vectors.LengthSquared(a);
    Vectors.LengthSquaredScaled(a, k);
    PositiveMultiple(k, ls);
    SqrtPositive(lib.sqrt, ls);
    var l := Vectors.Length(lib, a);
    SquareOfProduct(k, l, ls, Vectors.LengthSquared(Vectors.Scaled(a, k)));
    SqrtIsRoot(lib.sqrt, Vectors.LengthSquared(Vectors.Scaled(a, k)), k * l);
  }

  lemma PositiveMultiple(k: real, ls: real)
    requires 0.0 < k && 0.0 < ls
    ensures Naught < k * k * ls
  {
    ProductPositive(k, k);
    ProductPositive(k * k, ls);
  }

  lemma SquareOfProduct(k: real, l: real, ls: real, t: real)
    requires 0.0 < k && 0.0 < l && l * l == ls && t == k * k * ls
    ensures 0.0 <= k * l && (k * l) * (k * l) == t
  {
  }

  /** `(a k) / (k l) = a / l`. */
  lemma CancelCommon(a: real, k: real, l: real, lb: real)
    requires k != 0.0 && l != 0.0 && lb == k * l
    ensures (a * k) / lb == a / l
  {
    assert (a * k) / lb * (k * l) == a * k;
  }

  // ---------------------------------------------------------------------
  // The half-turn branch of fromRotationBetweenVec3, as written and as meant

  /** As written, the half turn is taken about `fallback` exactly when the
      fallback is (nearly) zero. For opposite directions and the zero
      fallback the result is `(cos(pi/2), 0, 0, 0)`: the zero quaternion, not
      a rotation, for any library in which `cos(pi/2)` is zero. */
  lemma ZeroFallbackUsed(lib: MathLib, vec1: Vectors.V3, vec2: Vectors.V3)
    requires SqrtLaws(lib.sqrt)
    requires 0.0 < Vectors.LengthSquared(vec1) && 0.0 < Vectors.LengthSquared(vec2)
    requires Alignment(lib, vec1, vec2) < OppositeBound
    requires lib.cos(lib.pi * 0.5) == 0.0
    ensures FromVectors(lib, vec1, vec2, Vectors.Zero) == Nil
  {
    ZeroIsShort();
    FromVectorsFallback(lib, vec1, vec2, Vectors.Zero);
    ZeroTurnIsNil(lib);
  }

  /** The half turn about the zero axis is the zero quaternion when
      `cos(pi/2)` is zero. */
  lemma ZeroTurnIsNil(lib: MathLib)
    requires lib.cos(lib.pi * 0.5) == 0.0
    ensures FromAxisAngle(lib, Vectors.Zero, lib.pi) == Nil
  {
    FromAxisAngleZeroAxis(lib, lib.pi);
  }

  lemma ZeroIsShort()
    ensures Abs(Vectors.LengthSquared(Vectors.Zero)) < Epsilon
  {
  }

  /** Opposite directions and a fallback shorter than the tolerance: the
      half turn about the fallback. */
  lemma FromVectorsFallback(lib: MathLib, vec1: Vectors.V3, vec2: Vectors.V3, fallback: Vectors.V3)
    requires SqrtLaws(lib.sqrt)
    requires 0.0 < Vectors.LengthSquared(vec1) && 0.0 < Vectors.LengthSquared(vec2)
    requires Alignment(lib, vec1, vec2) < OppositeBound
    requires Abs(Vectors.LengthSquared(fallback)) < Epsilon
    ensures FromVectors(lib, vec1, vec2, fallback) == FromAxisAngle(lib, fallback, lib.pi)
  {
  }

  /** About the zero axis, only the cosine is left. */
  lemma FromAxisAngleZeroAxis(lib: MathLib, angle: real)
    ensures FromAxisAngle(lib, Vectors.Zero, angle) == Quat(lib.cos(angle * 0.5), 0.0, 0.0, 0.0)
  {
    var s := lib.sin(angle * 0.5);
    assert Vectors.Zero.x * s == 0.0 * s == 0.0;
  }

  /** As written, the perpendicular axis is built from `vec1` as given, while
      the tolerance it is compared with is fixed. For a short `vec1 = (0, t,
      0)` with `t^2` below the tolerance, `(1, 0, 0) x vec1 = (0, 0, t)` is too
      short and `(0, 1, 0) x vec1` is zero: opposite `(0, -1, 0)`, and with a
      fallback long enough not to be used, the source goes on to normalise
      the zero vector. `FromVectors` has to exclude these inputs in its
      `requires`. */
  lemma PerpendicularAxisVanishes(t: real)
    requires t * t < Epsilon
    ensures PerpendicularAxis(Vectors.V3(0.0, t, 0.0)) == Vectors.Zero
  {
    var v := Vectors.V3(0.0, t, 0.0);
    CrossXAxisLength(v);
    CrossYAxis(v);
    PerpendicularAxisSecond(v, Vectors.LengthSquared(Vectors.CrossProduct(XAxis, v)));
  }

  /** `(0, t, 0)` for positive `t` and `(0, -1, 0)` point in opposite
      directions. */
  lemma ShortOpposite(lib: MathLib, t: real)
    requires SqrtLaws(lib.sqrt)
    requires 0.0 < t
    ensures 0.0 < Vectors.LengthSquared(Vectors.V3(0.0, t, 0.0))
    ensures 0.0 < Vectors.LengthSquared(Vectors.V3(0.0, -1.0, 0.0))
    ensures Alignment(lib, Vectors.V3(0.0, t, 0.0), Vectors.V3(0.0, -1.0, 0.0)) == -1.0
  {
    var up, down := Vectors.V3(0.0, t, 0.0), Vectors.V3(0.0, -1.0, 0.0);
    NormalizedAlongY(lib, t);
    UnitVectorNormalized(lib, down);
    AlignmentOf(lib, up, down, YAxis, down);
  }

  /** `Alignment` from the two normalised copies. */
  lemma AlignmentOf(lib: MathLib, v1: Vectors.V3, v2: Vectors.V3, n1: Vectors.V3, n2: Vectors.V3)
    requires SqrtLaws(lib.sqrt)
    requires 0.0 < Vectors.LengthSquared(v1) && 0.0 < Vectors.LengthSquared(v2)
    requires n1 == Vectors.Normalized(lib, v1) && n2 == Vectors.Normalized(lib, v2)
    ensures Alignment(lib, v1, v2) == Vectors.Dot(n1, n2)
  {
  }

  lemma NormalizedAlongY(lib: MathLib, t: real)
    requires SqrtLaws(lib.sqrt)
    requires 0.0 < t
    ensures 0.0 < Vectors.LengthSquared(Vectors.V3(0.0, t, 0.0))
    ensures Vectors.Normalized(lib, Vectors.V3(0.0, t, 0.0)) == YAxis
  {
    var v := Vectors.V3(0.0, t, 0.0);
    assert Vectors.LengthSquared(v) == t * t;
    SqrtIsRoot(lib.sqrt, t * t, t);
  }

  /** A coordinate unit vector, written out, is its own normalised copy. */
  lemma UnitVectorNormalized(lib: MathLib, v: Vectors.V3)
    requires SqrtLaws(lib.sqrt)
    requires v == Vectors.V3(0.0, -1.0, 0.0)
    ensures Vectors.LengthSquared(v) == 1.0
    ensures Vectors.Normalized(lib, v) == v
  {
    Vectors.NormalizedUnit(lib, v);
  }

  lemma CrossYAxis(u: Vectors.V3)
    ensures Vectors.CrossProduct(YAxis, u) == Vectors.V3(u.z, 0.0, -u.x)
  {
  }

  /** At or above the tolerance, the first candidate axis is the one chosen. */
  lemma PerpendicularAxisFirst(v: Vectors.V3, a: real)
    requires a == Vectors.LengthSquared(Vectors.CrossProduct(XAxis, v)) && !(Abs(a) < Epsilon)
    ensures PerpendicularAxis(v) == Vectors.CrossProduct(XAxis, v)
  {
  }

  /** Below the tolerance, the second candidate axis is the one chosen. */
  lemma PerpendicularAxisSecond(v: Vectors.V3, a: real)
    requires a == Vectors.LengthSquared(Vectors.CrossProduct(XAxis, v)) && a < Epsilon
    ensures PerpendicularAxis(v) == Vectors.CrossProduct(YAxis, v)
  {
  }

  /** The perpendicular axis of a unit vector is never zero: when
      `(1, 0, 0) x u` is shorter than the tolerance, `u` lies close to the x
      axis and `(0, 1, 0) x u` is long. */
  lemma PerpendicularAxisOfUnit(u: Vectors.V3)
    requires Vectors.LengthSquared(u) == 1.0
    ensures 0.0 < Vectors.LengthSquared(PerpendicularAxis(u))
    ensures Vectors.Dot(PerpendicularAxis(u), u) == 0.0
  {
    CrossAxesLengths(u);
    PerpendicularAxisPositive(u, Vectors.LengthSquared(Vectors.CrossProduct(XAxis, u)),
                              Vectors.LengthSquared(Vectors.CrossProduct(YAxis, u)));
    Vectors.CrossOrthogonal(XAxis, u);
    Vectors.CrossOrthogonal(YAxis, u);
  }

  /** When the two candidate axes carry a unit between them, the one chosen
      is not zero. */
  lemma PerpendicularAxisPositive(u: Vectors.V3, a: real, b: real)
    requires a == Vectors.LengthSquared(Vectors.CrossProduct(XAxis, u))
    requires b == Vectors.LengthSquared(Vectors.CrossProduct(YAxis, u))
    requires a + b >= 1.0
    ensures 0.0 < Vectors.LengthSquared(PerpendicularAxis(u))
  {
    if Abs(a) < Epsilon {
      PerpendicularAxisSecond(u, a);
    } else {
      PerpendicularAxisFirst(u, a);
    }
  }

  /** Between them, `(1, 0, 0) x u` and `(0, 1, 0) x u` carry at least the
      squared length of `u`. */
  lemma CrossAxesLengths(u: Vectors.V3)
    ensures Vectors.LengthSquared(Vectors.CrossProduct(XAxis, u))
            + Vectors.LengthSquared(Vectors.CrossProduct(YAxis, u))
            >= Vectors.LengthSquared(u)
  {
    CrossXAxisLength(u);
    CrossYAxisLength(u);
    SquareNonNegative(u.z);
  }

  lemma CrossXAxisLength(u: Vectors.V3)
    ensures Vectors.LengthSquared(Vectors.CrossProduct(XAxis, u)) == u.y * u.y + u.z * u.z
  {
  }

  lemma CrossYAxisLength(u: Vectors.V3)
    ensures Vectors.LengthSquared(Vectors.CrossProduct(YAxis, u)) == u.x * u.x + u.z * u.z
  {
  }

  /** A vector orthogonal to `u` stays orthogonal to it once normalised. */
  lemma NormalizedOrthogonal(lib: MathLib, p: Vectors.V3, u: Vectors.V3)
    requires SqrtLaws(lib.sqrt)
    requires 0.0 < Vectors.LengthSquared(p)
    requires Vectors.Dot(p, u) == 0.0
    ensures Vectors.Dot(Vectors.Normalized(lib, p), u) == 0.0
  {
    var r := Vectors.Normalized(lib, p);
    var l := Vectors.Length(lib, p);
    SqrtPositive(lib.sqrt, Vectors.LengthSquared(p));
    assert Vectors.Scaled(r, l) == p;
    assert Vectors.Dot(Vectors.Scaled(r, l), u) == l * Vectors.Dot(r, u);
  }

  /** The half-turn axis as evidently intended: the caller's `fallback` when
      one is given (not shorter than the tolerance), and otherwise the
      normalised perpendicular axis of the direction of `vec1`, which is
      never zero and is orthogonal to that direction. */
  function HalfTurnAxis(lib: MathLib, vec1: Vectors.V3, fallback: Vectors.V3): (axis: Vectors.V3)
    requires SqrtLaws(lib.sqrt)
    requires 0.0 < Vectors.LengthSquared(vec1)
    ensures !(Abs(Vectors.LengthSquared(fallback)) < Epsilon) ==> axis == fallback
    ensures Abs(Vectors.LengthSquared(fallback)) < Epsilon ==>
              Vectors.LengthSquared(axis) == 1.0
              && Vectors.Dot(axis, Vectors.Normalized(lib, vec1)) == 0.0
  {
    if !(Abs(Vectors.LengthSquared(fallback)) < Epsilon) then
      fallback
    else
      var u := Vectors.Normalized(lib, vec1);
      PerpendicularAxisOfUnit(u);
      NormalizedOrthogonal(lib, PerpendicularAxis(u), u);
      Vectors.Normalized(lib, PerpendicularAxis(u))
  }

  /** `fromRotationBetweenVec3` with the half-turn branch corrected. It needs
      no more of its caller than two non-zero vectors, and it returns a unit
      quaternion whenever the fallback, if it is used, is a unit axis and
      `sin^2 + cos^2 = 1` at `pi / 2`. */
  function RotationBetween(lib: MathLib, vec1: Vectors.V3, vec2: Vectors.V3, fallback: Vectors.V3): (r: Quat)
    requires SqrtLaws(lib.sqrt)
    requires 0.0 < Vectors.LengthSquared(vec1) && 0.0 < Vectors.LengthSquared(vec2)
    ensures Alignment(lib, vec1, vec2) >= 1.0 ==> r == Identity
    ensures Pythagorean(lib, lib.pi * 0.5)
            && (Abs(Vectors.LengthSquared(fallback)) < Epsilon || Vectors.LengthSquared(fallback) == 1.0)
            ==> LengthSquared(r) == 1.0
  {
    var a := Alignment(lib, vec1, vec2);
    if a < OppositeBound then
      var axis := HalfTurnAxis(lib, vec1, fallback);
      HalfTurnUnit(lib, axis);
      FromAxisAngle(lib, axis, lib.pi)
    else
      FromVectors(lib, vec1, vec2, fallback)
  }

  /** What the corrected conversion does to the direction `n1` of `vec1`:
      for directions that are neither aligned nor opposite it turns `n1`
      onto the direction of `vec2`; for opposite directions it reverses
      `n1` whenever the half-turn axis is the computed one (the fallback is
      short) or a unit fallback orthogonal to `n1`. */
  lemma RotationBetweenTurns(lib: MathLib, vec1: Vectors.V3, vec2: Vectors.V3, fallback: Vectors.V3)
    requires SqrtLaws(lib.sqrt)
    requires 0.0 < Vectors.LengthSquared(vec1) && 0.0 < Vectors.LengthSquared(vec2)
    ensures OppositeBound <= Alignment(lib, vec1, vec2) < 1.0 ==>
              Rotate(RotationBetween(lib, vec1, vec2, fallback), Vectors.Normalized(lib, vec1))
              == Vectors.Normalized(lib, vec2)
    ensures Alignment(lib, vec1, vec2) < OppositeBound && QuarterTurn(lib)
            && (Abs(Vectors.LengthSquared(fallback)) < Epsilon
                || (Vectors.LengthSquared(fallback) == 1.0
                    && Vectors.Dot(fallback, Vectors.Normalized(lib, vec1)) == 0.0)) ==>
              Rotate(RotationBetween(lib, vec1, vec2, fallback), Vectors.Normalized(lib, vec1))
              == Vectors.Negated(Vectors.Normalized(lib, vec1))
  {
    var a := Alignment(lib, vec1, vec2);
    var n1, n2 := Vectors.Normalized(lib, vec1), Vectors.Normalized(lib, vec2);
    if OppositeBound <= a < 1.0 {
      BetweenTurnAligns(lib, n1, n2);
    } else if a < OppositeBound && QuarterTurn(lib) {
      var axis := HalfTurnAxis(lib, vec1, fallback);
      if Vectors.LengthSquared(axis) == 1.0 && Vectors.Dot(axis, n1) == 0.0 {
        HalfTurnReverses(lib, axis, n1);
      }
    }
  }

  /** A half turn about a unit axis orthogonal to `v` reverses `v`. */
  lemma HalfTurnReverses(lib: MathLib, axis: Vectors.V3, v: Vectors.V3)
    requires QuarterTurn(lib)
    requires Vectors.LengthSquared(axis) == 1.0 && Vectors.Dot(axis, v) == 0.0
    ensures Rotate(FromAxisAngle(lib, axis, lib.pi), v) == Vectors.Negated(v)
  {
    var q := FromAxisAngle(lib, axis, lib.pi);
    Vectors.ScaledBy(axis, lib.sin(lib.pi * 0.5), 1.0);
    assert VectorPart(q) == axis && q.w == 0.0;
    Vectors.ScaledBy(Vectors.CrossProduct(axis, v), 2.0 * q.w, 0.0);
    CrossTwiceUnit(axis, v);
  }

  /** `u x (u x v) = -v` for a unit `u` orthogonal to `v`. */
  lemma CrossTwiceUnit(u: Vectors.V3, v: Vectors.V3)
    requires Vectors.LengthSquared(u) == 1.0 && Vectors.Dot(u, v) == 0.0
    ensures Vectors.CrossProduct(u, Vectors.CrossProduct(u, v)) == Vectors.Negated(v)
  {
    assert 0.0 == u.x * v.x + u.y * v.y + u.z * v.z;
    assert 1.0 == u.x * u.x + u.y * u.y + u.z * u.z;
    TripleIdentity(u.x, u.y, u.z, v.x, v.y, v.z, 0.0, 1.0);
  }

  /** The vector triple product `u x (u x v) = u (u . v) - v (u . u)`,
      componentwise, with `d = u . v` and `n = u . u`. */
  lemma TripleIdentity(ux: real, uy: real, uz: real, vx: real, vy: real, vz: real, d: real, n: real)
    requires d == ux * vx + uy * vy + uz * vz && n == ux * ux + uy * uy + uz * uz
    ensures uy * (ux * vy - uy * vx) - uz * (uz * vx - ux * vz) == ux * d - vx * n
    ensures uz * (uy * vz - uz * vy) - ux * (ux * vy - uy * vx) == uy * d - vy * n
    ensures ux * (uz * vx - ux * vz) - uy * (uy * vz - uz * vy) == uz * d - vz * n
  {
  }

  /** A half turn about a unit axis is a unit quaternion. */
  lemma HalfTurnUnit(lib: MathLib, axis: Vectors.V3)
    ensures Pythagorean(lib, lib.pi * 0.5) && Vectors.LengthSquared(axis) == 1.0
            ==> LengthSquared(FromAxisAngle(lib, axis, lib.pi)) == 1.0
  {
    if Pythagorean(lib, lib.pi * 0.5) && Vectors.LengthSquared(axis) == 1.0 {
      FromAxisAngleUnit(lib, axis, lib.pi);
    }
  }
}
