# Quaternion and vector rotation algebra

A Dafny model of the rotation core of `cython-test`. It covers the C++ class `CQuaternion`, with the three-component vector `CVec3` it works with and the 3x3 matrix `CMat3` that it reads.

The C++ `float` is idealised as the mathematical `real`. `sqrt`, `sin`, `cos`, `acos` and `M_PI` are not interpreted: they are the fields of a `MathLib` value that every caller passes in. The only facts assumed about them are:
- for `sqrt`, the two laws collected in `RealMath.SqrtLaws` (the root of a non-negative number is non-negative and squares back to it);
- for the trigonometric functions, whatever a lemma states in its own `requires` (`sin^2 + cos^2 = 1` at a named angle, `sin 0 = 0`, ...).

The tolerance `epsilon` is the constant `1/64`.

Modules:

- `RealMath` (`real_math.dfy`):
  - `MathLib`, `SqrtLaws` and C++ `abs`;
  - small facts about squares and square roots.
- `Vectors` (`vec3.dfy`):
  - `V3`, the value of a `CVec3`, with functions for its read-only members (`dot`, `lengthSquared`, `length`) and for the pure forms of `cross`, `scale`, `add` and `normalize`;
  - class `Vec3`, whose methods overwrite `x`, `y`, `z` in place.
- `Matrices` (`mat3.dfy`):
  - `Mat3`, the nine-field `CMat3`, used only as input;
  - the 4x4 working layout that `fromRotationMatrix` copies it into.
- `Quaternions` (`quaternion.dfy`):
  - `Quat`, the value of a `CQuaternion`;
  - the Hamilton product, conjugate, dot, length, scale, add, normalize, inverse and `multiplyVec3`;
  - the algebra proved about them: associativity, the multiplicative norm, conjugation of a product, the sandwich form of `multiplyVec3`, and that unit quaternions rotate without changing length and compose.
- `Rotations` (`conversions.dfy`): the conversions, each proved for its branch structure:
  - from an axis and angle, from a rotation matrix, from yaw/pitch/roll and from a pair of directions;
  - to an axis and angle;
  - `slerp`.
- `QuaternionObject` (`quaternion_object.dfy`):
  - class `Quaternion`, whose four fields the mutating methods overwrite;
  - each method states its new value as a function of the old values of the object and its operands, so a call whose operand is the object itself is covered;
  - the static forms clone their first operand, mutate the clone and return it.

Two things the object methods rely on:
- `multiply` and `cross` compute every component into locals before writing any field, so the in-place result is the pure product even under aliasing.
- `fromRotationMatrix` reads a 16-entry array through a pointer to its first element. The model reads a snapshot sequence of that array (`WorkingMatrix`), which is exact because the array is not written after the pointer is taken.

The branch conditions are reproduced as written, including three that look inverted or wrong. They are listed under Findings, each with a corrected definition next to it. The object methods and the functions they are specified by (`Quaternions.Inverse`, `Rotations.FromVectors`) follow the code as written. The corrected definitions (`Quaternions.Reciprocal`, `Rotations.RotationBetween`) stand beside them with the intended properties proved.

## Model

The plain definitions carry no contract of their own. Each is stated by the lemmas in its rows:
- `Quaternions.Product`: `ProductIdentity`, `ProductAssociative`, `ProductLengthSquared`, `ConjugateOfProduct`, `ProductConjugate`.
- `Quaternions.Conjugated`: the three `Conjugate*` lemmas.
- `Quaternions.Dot`: `DotSymmetric`, `DotSelf`.
- `Quaternions.IsIdentity`: `IsIdentityExactly`.
- `Quaternions.Scaled`: `ScalarProduct`, `ScaledOne`, `LengthSquaredScaled`.
- `Quaternions.Sum`: `SumCommutative`, `SumNil`.
- `Quaternions.Rotate`: the `Rotate*` lemmas.
- `Vectors.Dot`, `Vectors.CrossProduct`, `Vectors.Scaled` and `Vectors.Sum`: the `Dot*`, `Cross*`, `Scaled*` and `Sum*` lemmas.
- `Rotations.FromAxisAngle`: the `FromAxisAngle*` lemmas and `HalfTurnReverses`.
- `Rotations.FromMatrix`: `BranchOf`, `Radicand`, `FromMatrixBranches` and `FromMatrixIdentity`.
- `Rotations.YawPitchRollRaw`: `YawPitchRollComposes` and `RawIsUnit`.
- `Rotations.Slerp`: the `Slerp*` lemmas.
- `Rotations.Alignment`: `AlignmentBounded` and `AlignedExactly`.
- `Rotations.PerpendicularAxis`: `PerpendicularAxisOrthogonal`, `PerpendicularAxisOfUnit` and `PerpendicularAxisVanishes`.
- `Rotations.OppositeTurn`: `FromVectorsFallback`, `ZeroFallbackUsed` and `FromVectorsTurns`.

| member | source | states |
|---|---|---|
| RealMath.Abs | CQuaternion.cpp:65 | C++ `abs` on a float is non-negative and equals its argument or the negation of it |
| Vectors.LengthSquared | CVec3.h:28-34 | `lengthSquared` is never negative, and it is zero exactly for the zero vector |
| Vectors.Length | CVec3.h:24-26 | `length` is non-negative and squares to `lengthSquared` |
| Vectors.Divided | CVec3.h:39-41 | dividing each component by a non-zero `s` is undone by scaling by `s` |
| Vectors.Normalized | CVec3.h:36-44 | `normalize` of a non-zero vector gives a unit vector which, scaled by the old length, is the old vector |
| Vectors.NormalizedUnit | CVec3.h:36-44 | normalising a unit vector leaves it unchanged |
| Vectors.DividedByLength | CVec3.h:36-44 | a vector divided by its own non-zero length is a unit vector |
| Vectors.DotSymmetric | CVec3.h:46-54 | `a.dot(b) == b.dot(a)` |
| Vectors.DotSelf | CVec3.h:46-54 | a vector dotted with itself is its `lengthSquared` |
| Vectors.CrossOrthogonal | CVec3.h:59-61 | the cross product is orthogonal to both operands |
| Vectors.CrossAntiCommutative | CVec3.h:56-68 | `a x b` is the negation of `b x a` |
| Vectors.CrossSelfIsZero | CVec3.h:56-68 | `a x a` is the zero vector |
| Vectors.CrossLengthSquared | CVec3.h:59-61 | Lagrange's identity: `lengthSquared(a x b) = lengthSquared(a) lengthSquared(b) - (a . b)^2` |
| Vectors.CrossZero | CVec3.h:59-61 | the zero vector crossed with anything is zero |
| Vectors.ScaledOne | CVec3.h:70-78 | `scale(1)` changes nothing |
| Vectors.ScaledZero | CVec3.h:70-78 | scaling the zero vector gives the zero vector |
| Vectors.LengthSquaredScaled | CVec3.h:70-78 | scaling by `s` multiplies `lengthSquared` by `s^2` |
| Vectors.SumZero | CVec3.h:80-88 | adding the zero vector, on either side, changes nothing |
| Vectors.SumCommutative | CVec3.h:80-88 | `add` is commutative |
| Vectors.Vec3.constructor | CVec3.h:8-12 | the new vector holds the three given components |
| Vectors.Vec3.Clone | CVec3.h:16-22 | `clone(ptr)` copies the components into `ptr` and leaves this vector unchanged |
| Vectors.Vec3.Normalize | CVec3.h:36-44 | the new value is the normalised old value, a unit vector, when the old one is not zero |
| Vectors.Vec3.NormalizedCopy | CQuaternion.cpp:400-401 | `v->clone()->normalize()` is a fresh unit vector, the normalised `v` |
| Vectors.Vec3.CrossOf | CQuaternion.cpp:418 | the static cross is a fresh vector holding the cross product of the two operands, which do not change |
| Vectors.Vec3.Cross | CVec3.h:56-68 | the new value is the cross product of the old values, also when `other` is this vector |
| Vectors.Vec3.Scale | CVec3.h:70-78 | every component is multiplied by `s` |
| Vectors.Vec3.Add | CVec3.h:80-88 | the new value is the component-wise sum of the old values, also when `other` is this vector |
| Quaternions.LengthSquared | CQuaternion.cpp:95-102 | `lengthSquared` is never negative, and it is zero exactly for the zero quaternion |
| Quaternions.Length | CQuaternion.cpp:91-93 | `length` is non-negative and squares to `lengthSquared` |
| Quaternions.DotSymmetric | CQuaternion.cpp:37-52 | `dot` is symmetric, so the static `dot(q1, q2)` does not depend on the order of its operands |
| Quaternions.DotSelf | CQuaternion.cpp:37-46 | a quaternion dotted with itself is its `lengthSquared` |
| Quaternions.IsIdentityExactly | CQuaternion.cpp:82-89 | `isIdentity` holds exactly of `(1, 0, 0, 0)` |
| Quaternions.ConjugateInvolution | CQuaternion.cpp:23-30 | conjugating twice restores the quaternion |
| Quaternions.ConjugateParts | CQuaternion.cpp:23-30 | `conjugate` keeps `w` and negates the vector part |
| Quaternions.ConjugateLengthSquared | CQuaternion.cpp:23-30 | conjugation keeps `lengthSquared` |
| Quaternions.ProductIdentity | CQuaternion.cpp:106-140 | multiplying by `(1, 0, 0, 0)` on either side changes nothing |
| Quaternions.ProductConjugate | CQuaternion.cpp:106-140 | `q conj(q)` and `conj(q) q` are both `(lengthSquared(q), 0, 0, 0)` |
| Quaternions.ProductAssociative | CQuaternion.cpp:106-140 | the Hamilton product is associative |
| Quaternions.ProductLengthSquared | CQuaternion.cpp:106-140 | the squared length of a product is the product of the squared lengths (Euler's four-square identity) |
| Quaternions.ConjugateOfProduct | CQuaternion.cpp:106-140 | `conj(p q) = conj(q) conj(p)` |
| Quaternions.ProductScaledRight | CQuaternion.cpp:106-140 | `p (s q) = s (p q)` |
| Quaternions.ProductScaledLeft | CQuaternion.cpp:106-140 | `(s p) q = s (p q)` |
| Quaternions.ScalarProduct | CQuaternion.cpp:353-362 | `scale(s)` is the Hamilton product with the scalar quaternion `(s, 0, 0, 0)`, on either side |
| Quaternions.ScaledOne | CQuaternion.cpp:353-362 | `scale(1)` changes nothing |
| Quaternions.LengthSquaredScaled | CQuaternion.cpp:353-362 | scaling by `s` multiplies `lengthSquared` by `s^2` |
| Quaternions.SumCommutative | CQuaternion.cpp:378-387 | `add` is commutative |
| Quaternions.SumNil | CQuaternion.cpp:378-387 | adding the zero quaternion changes nothing |
| Quaternions.Normalized | CQuaternion.cpp:148-154 | `normalize` of a non-zero quaternion is a unit quaternion which, scaled by the old length, is the old quaternion |
| Quaternions.NormalizedUnit | CQuaternion.cpp:148-154 | normalising a unit quaternion leaves it unchanged |
| Quaternions.Inverse | CQuaternion.cpp:63-75 | as written: the zero quaternion when `abs(length) > 1/64`; otherwise a quaternion whose product with `q` is `(length, 0, 0, 0)` (not the identity) |
| Quaternions.InverseBranch | CQuaternion.cpp:64-65 | the `inverse` guard holds exactly when `lengthSquared > 1/4096` |
| Quaternions.InverseOfUnitIsNil | CQuaternion.cpp:63-75 | as written, `inverse` of any unit quaternion is zero, so `q * inverse(q)` is not the identity |
| Quaternions.Reciprocal | CQuaternion.cpp:63-75 | corrected inverse: zero below the tolerance, and otherwise the two-sided multiplicative inverse |
| Quaternions.ReciprocalOfUnit | CQuaternion.cpp:63-75 | the corrected inverse of a unit quaternion is its conjugate |
| Quaternions.RotateIdentity | CQuaternion.cpp:454-473 | `multiplyVec3` with the identity quaternion returns `v` |
| Quaternions.RotateSandwich | CQuaternion.cpp:454-473 | `multiplyVec3` is the vector part of `q (0 + v) conj(q)`, less `(lengthSquared(q) - 1) v`; the scalar part of the sandwich is zero |
| Quaternions.RotateUnitSandwich | CQuaternion.cpp:454-473 | for a unit quaternion, `q (0 + v) conj(q) = 0 + multiplyVec3(v)` |
| Quaternions.RotatePreservesLength | CQuaternion.cpp:454-473 | a unit quaternion rotates without changing `lengthSquared` |
| Quaternions.RotateProduct | CQuaternion.cpp:454-473 | for unit `p` and `q`, rotating by `p q` is rotating by `q`, then by `p` |
| Quaternions.IntertwinedScaled | CQuaternion.cpp:353-362 | scaling `p` by any factor keeps the relation `p (0 + v) = (0 + w) p` |
| Quaternions.RotateIntertwined | CQuaternion.cpp:454-473 | a unit quaternion `q` with `q (0 + v) = (0 + w) q` makes `multiplyVec3` send `v` to `w` |
| Rotations.FromAxisAngleUnit | CQuaternion.cpp:161-174 | a unit axis gives a unit quaternion when `sin^2 + cos^2 = 1` at the half angle |
| Rotations.FromAxisAngleFixesAxis | CQuaternion.cpp:161-174 | the rotation built from an axis leaves that axis fixed, whatever `sin` and `cos` return |
| Rotations.FromAxisAngleZero | CQuaternion.cpp:161-174 | a zero angle gives the identity when `sin 0 = 0` and `cos 0 = 1` |
| Rotations.BranchOf | CQuaternion.cpp:198-243 | the trace branch exactly when `m[0] + m[5] + m[10] + 1 > 1/64`; otherwise the first branch only when `m[0]` is strictly greatest, the second when `m[5] > m[10]`, else the third |
| Rotations.Radicand | CQuaternion.cpp:202-235 | the number under the square root is positive on every branch, so no branch divides by zero |
| Rotations.FromMatrixBranches | CQuaternion.cpp:200-243 | on each branch the selected component is positive, four times its square is the radicand, and four times it times each other component is the off-diagonal sum or difference that Shepperd's method inverts |
| Rotations.FromMatrixIdentity | CQuaternion.cpp:176-251 | the identity matrix gives the identity quaternion |
| Rotations.YawPitchRollComposes | CQuaternion.cpp:258-281 | before normalising, `fromYawPitchRoll` is the product of the roll, yaw and pitch half-angle rotations about z, y and x |
| Rotations.FromYawPitchRoll | CQuaternion.cpp:253-284 | `fromYawPitchRoll` gives a unit quaternion |
| Rotations.FromYawPitchRollIsRaw | CQuaternion.cpp:253-284 | with `sin^2 + cos^2 = 1` at the three half angles, the normalisation changes nothing |
| Rotations.RawIsUnit | CQuaternion.cpp:258-281 | with `sin^2 + cos^2 = 1` at the three half angles, the product before normalising is already a unit quaternion |
| Rotations.UnitProduct | CQuaternion.cpp:106-140 | the product of two unit quaternions is a unit quaternion |
| Rotations.ToAxisAngle | CQuaternion.cpp:319-351 | the axis is a unit vector; on the degenerate condition it is `(0, 0, 1)` with angle 0; otherwise the angle is `2 acos(w)` and the axis scaled by the vector part's length is the vector part |
| Rotations.SlerpSame | CQuaternion.cpp:291-300 | `slerp` of a quaternion with itself returns it, for every `t` |
| Rotations.SlerpStart | CQuaternion.cpp:302-316 | for distinct inputs, `t = 0` gives `q1` when `sin 0 = 0` and `sin(acos c) = sqrt(1 - c^2)` |
| Rotations.SlerpEnd | CQuaternion.cpp:302-316 | under the same facts, `t = 1` gives `q2` |
| Rotations.FromVectors | CQuaternion.cpp:395-452 | `fromRotationBetweenVec3` as written: strictly between the opposite bound and full alignment, the result is a unit quaternion |
| Rotations.FromVectorsTurns | CQuaternion.cpp:395-452 | as written: strictly between the opposite bound and full alignment, the result turns the direction of `vec1` onto the direction of `vec2`; for opposite directions with the fallback not taken, it reverses the direction of `vec1` when `cos(pi/2) = 0` and `sin(pi/2) = 1` |
| Rotations.AlignmentBounded | CQuaternion.cpp:400-402 | the alignment `a` of two non-zero vectors lies between -1 and 1 |
| Rotations.AlignedExactly | CQuaternion.cpp:400-408 | the `a >= 1` branch is taken exactly when the two normalised directions are equal |
| Rotations.FromVectorsParallel | CQuaternion.cpp:400-408 | a vector and a positive multiple of it are fully aligned and give the identity |
| Rotations.NormalizedScaled | CQuaternion.cpp:400-401 | normalising a positive multiple of a vector is normalising the vector |
| Rotations.HalfwayScale | CQuaternion.cpp:440 | `sqrt((1 + a) 2)` is positive above the opposite bound, so `1 / s` is defined |
| Rotations.BetweenTurn | CQuaternion.cpp:440-451 | the in-between turn is a unit quaternion |
| Rotations.ArcTurns | CQuaternion.cpp:440-451 | for unit directions, the unscaled quaternion `(1 + v1 . v2, v1 x v2)` carries `v1` to `v2`: `p (0 + v1) = (0 + v2) p` |
| Rotations.ArcLengthSquared | CQuaternion.cpp:440-451 | its squared length is `(1 + v1 . v2) 2`, the square of `s` |
| Rotations.HalfwayIsArc | CQuaternion.cpp:440-447 | the fields the code writes, `s / 2` and `c * invs`, are that quaternion scaled by `1 / s` |
| Rotations.ScaledArcUnit | CQuaternion.cpp:440-451 | scaled by `1 / s` it is a unit quaternion, so the final `normalize` changes nothing |
| Rotations.BetweenTurnAligns | CQuaternion.cpp:440-451 | the in-between turn of two unit directions rotates `v1` onto `v2` under `multiplyVec3` |
| Rotations.FromVectorsFallback | CQuaternion.cpp:410-415 | as written, for opposite directions a fallback shorter than the tolerance is the axis of the half turn |
| Rotations.ZeroFallbackUsed | CQuaternion.cpp:410-415 | as written, opposite directions with the zero fallback give the zero quaternion when `cos(pi/2) = 0` |
| Rotations.PerpendicularAxisVanishes | CQuaternion.cpp:417-429 | as written, for `vec1 = (0, t, 0)` with `t^2 < 1/64` both candidate axes fail and the axis to be normalised is zero |
| Rotations.ShortOpposite | CQuaternion.cpp:400-410 | `(0, t, 0)` with `t > 0` and `(0, -1, 0)` have alignment `-1`, so they reach the opposite branch |
| Rotations.PerpendicularAxisOfUnit | CQuaternion.cpp:417-429 | built from the normalised direction, the perpendicular axis is never zero and is orthogonal to it |
| Rotations.PerpendicularAxisOrthogonal | CQuaternion.cpp:417-429 | whichever candidate is chosen, the perpendicular axis is orthogonal to `vec1` |
| Rotations.HalfTurnAxis | CQuaternion.cpp:410-437 | corrected half-turn axis: the fallback when one is given, else a unit axis orthogonal to the direction of `vec1` |
| Rotations.RotationBetween | CQuaternion.cpp:395-452 | corrected `fromRotationBetweenVec3`: defined for any two non-zero vectors; the identity when aligned; a unit quaternion whenever a fallback that is used is a unit axis and `sin^2 + cos^2 = 1` at `pi/2` |
| Rotations.RotationBetweenTurns | CQuaternion.cpp:395-452 | corrected: strictly between the bounds, the result turns the direction of `vec1` onto that of `vec2`; for opposite directions it reverses the direction of `vec1` when `cos(pi/2) = 0`, `sin(pi/2) = 1` and the fallback is either absent or a unit axis orthogonal to it |
| Rotations.HalfTurnUnit | CQuaternion.cpp:433 | a half turn about a unit axis is a unit quaternion |
| Rotations.HalfTurnReverses | CQuaternion.cpp:433 | when `cos(pi/2) = 0` and `sin(pi/2) = 1`, the half turn about a unit axis orthogonal to `v` sends `v` to `-v` |
| QuaternionObject.Quaternion.constructor | CQuaternion.cpp:9-15 | the new quaternion holds the four given components |
| QuaternionObject.Quaternion.Default | CQuaternion.cpp:9-15 | with every argument defaulted, the new quaternion is `(1, 0, 0, 0)` and `isIdentity` holds |
| QuaternionObject.Quaternion.Clone | CQuaternion.cpp:17-21 | a fresh quaternion equal to this one |
| QuaternionObject.Quaternion.Conjugate | CQuaternion.cpp:23-30 | the new value is the conjugate of the old |
| QuaternionObject.Quaternion.ConjugateOf | CQuaternion.cpp:31-35 | a fresh conjugate of `q`; `q` does not change |
| QuaternionObject.Quaternion.Reset | CQuaternion.cpp:54-61 | the new value is `(1, 0, 0, 0)`, and `isIdentity` holds |
| QuaternionObject.Quaternion.Inverse | CQuaternion.cpp:63-75 | the new value is `inverse` as written of the old value |
| QuaternionObject.Quaternion.InverseOf | CQuaternion.cpp:76-80 | a fresh `inverse` of `q`; `q` does not change |
| QuaternionObject.Quaternion.Multiply | CQuaternion.cpp:106-140 | the new value is the Hamilton product of the old values, also when `other` is this quaternion |
| QuaternionObject.Quaternion.MultiplyOf | CQuaternion.cpp:141-146 | a fresh product `q1 q2`; neither operand changes |
| QuaternionObject.Quaternion.Normalize | CQuaternion.cpp:148-154 | the new value is the normalised old value, a unit quaternion |
| QuaternionObject.Quaternion.NormalizeOf | CQuaternion.cpp:155-159 | a fresh normalised copy of `q` |
| QuaternionObject.Quaternion.FromRotationAxis | CQuaternion.cpp:161-174 | the new value is `cos(angle/2) + sin(angle/2) axis` |
| QuaternionObject.Quaternion.WorkingMatrix | CQuaternion.cpp:180-196 | the zero-initialised array, after the ten writes, is the working layout of the matrix |
| QuaternionObject.Quaternion.FromRotationMatrix | CQuaternion.cpp:176-251 | the new value is the extraction from the branch the diagonal selects |
| QuaternionObject.Quaternion.FromYawPitchRoll | CQuaternion.cpp:253-284 | the new value is the normalised product of the three half-angle rotations, a unit quaternion |
| QuaternionObject.Quaternion.Slerp | CQuaternion.cpp:286-317 | a fresh copy of `q1` when the inputs are equal component by component, otherwise the weighted sum of the two |
| QuaternionObject.Quaternion.ToAxisAngle | CQuaternion.cpp:319-351 | writes the unit axis into `axis` and returns the angle, as `Rotations.ToAxisAngle` of this quaternion |
| QuaternionObject.Quaternion.Scale | CQuaternion.cpp:353-362 | every component is multiplied by `s` |
| QuaternionObject.Quaternion.ScaleOf | CQuaternion.cpp:363-368 | a fresh scaled copy of `q` |
| QuaternionObject.Quaternion.Assign | CQuaternion.cpp:370-376 | the new value is the old value of `other` |
| QuaternionObject.Quaternion.Add | CQuaternion.cpp:378-387 | the new value is the component-wise sum of the old values, also when `other` is this quaternion |
| QuaternionObject.Quaternion.AddOf | CQuaternion.cpp:388-393 | a fresh sum `q1 + q2`; neither operand changes |
| QuaternionObject.Quaternion.FromRotationBetweenVec3 | CQuaternion.cpp:395-452 | the new value is `fromRotationBetweenVec3` as written: the identity when aligned, the half turn when opposite, the normalised in-between turn otherwise |
| QuaternionObject.Quaternion.TurnOpposite | CQuaternion.cpp:410-437 | the half turn about the short fallback, or about the normalised perpendicular axis of `vec1` as given |
| QuaternionObject.Quaternion.TurnBetween | CQuaternion.cpp:440-451 | the normalised in-between turn of the two unit directions |
| QuaternionObject.Quaternion.MultiplyVec3 | CQuaternion.cpp:454-473 | a fresh vector `v + 2w (u x v) + 2 (u x (u x v))`; neither the quaternion nor `v` changes |
| QuaternionObject.Quaternion.MultiplyVec3Of | CQuaternion.cpp:474-479 | the static form returns the same rotated vector |

## Left out

- Floating point: `float` is idealised as `real`, with no rounding, overflow, NaN or infinity. Literals such as `1e-6f - 1.0f` are taken as exact reals. Where the source divides by a quantity that can be zero, the member that reaches the division requires it to be non-zero. These members are listed below.
- Vectors.Normalized: requires a non-zero vector, because `normalize` has no zero-length guard and would produce NaN components.
- Quaternions.Normalized: requires a non-zero quaternion, for the same reason.
- Quaternions.Inverse: excludes the zero quaternion. It passes the guard and is then scaled by `1 / 0`.
- Rotations.FromYawPitchRoll: requires the quaternion before normalisation not to be zero. That holds whenever `sin^2 + cos^2 = 1` at the three half angles (`Rotations.RawIsUnit`).
- Rotations.Slerp: for distinct inputs, requires `sqrt(1 - (q1 . q2)^2)` to be non-zero. The source divides by it unguarded.
- Rotations.FromVectors: requires two non-zero vectors, and a non-zero perpendicular axis whenever that axis is used. The source normalises all three without guards. Findings shows inputs that violate the last requirement.
- Trigonometry: `sin`, `cos`, `acos`, `sqrt` and `M_PI` are uninterpreted fields of `MathLib`. The general `slerp` formula, the `acos` in `toAxisAngle` and the angles in `fromRotationAxis` and `fromYawPitchRoll` are modelled in structure only. A claim about the numbers they compute would need real trigonometry; the lemmas state the trigonometric facts they rely on as preconditions.
- Memory: the model does not cover `new`, `delete`, or the leaks caused by `delete a, b` (the comma operator deletes only `a`). Returning `this` for call chaining is not modelled either: a chain is a sequence of method calls.
- `assign` copies the first four floats with `memcpy`. For this class without virtual members those are `w, x, y, z`, so it is modelled as a field copy.
- `fromRotationBetweenVec3` calls `clone()` on a `CVec3` with no argument, while `CVec3.h` declares only `clone(ptr)`. It is modelled as copying into a fresh vector (`Vectors.Vec3.NormalizedCopy`).
- The static `CVec3::cross(a, b)` that the quaternion code calls is not declared in `CVec3.h`. It is modelled as clone-then-cross (`Vectors.Vec3.CrossOf`).
- `fromRotationBetweenVec3`: the opposite and in-between branches are separate methods (`TurnOpposite`, `TurnBetween`) called from the dispatch. The `a >= 1` branch calls `Reset`.
- `exp()` and `ln()` are declared in `CQuaternion.h` but not implemented, so they are not part of this model.
- `setup.py` is build plumbing only and is not part of this model.

## Findings

| source | as written | input that shows it | evidently intended | confidence | as-written member | corrected member |
|---|---|---|---|---|---|---|
| CQuaternion.cpp:63-75 | `inverse` zeroes the quaternion when `abs(length) > epsilon`, and otherwise scales the conjugate by `1 / length` | any unit quaternion, e.g. `(1, 0, 0, 0)`: the result is `(0, 0, 0, 0)` and `q * inverse(q)` is zero | zero only below the tolerance; otherwise `conj(q) / lengthSquared(q)`, whose product with `q` on either side is the identity | high (not executed) | Quaternions.InverseOfUnitIsNil | Quaternions.Reciprocal |
| CQuaternion.cpp:413-414 | for opposite directions, `fallback` is used as the axis only when its squared length is below `epsilon` | `vec1 = (1, 0, 0)`, `vec2 = (-1, 0, 0)`, `fallback = (0, 0, 0)`: the result is `(cos(pi/2), 0, 0, 0)`, the zero quaternion, not a rotation | use `fallback` when one is given (not shorter than the tolerance); otherwise compute an axis | high (not executed) | Rotations.ZeroFallbackUsed | Rotations.RotationBetween |
| CQuaternion.cpp:417-431 | the perpendicular axis is `(1, 0, 0) x vec1`, or `(0, 1, 0) x vec1`, with the caller's unnormalised `vec1`, against a fixed tolerance | `vec1 = (0, 0.1, 0)`, `vec2 = (0, -1, 0)`, `fallback = (0, 0, 1)`: the first axis has squared length `0.01 < 1/64`, the second is zero, and the zero axis is normalised | cross with the normalised `v1`, whose perpendicular axis is never zero | high (not executed) | Rotations.PerpendicularAxisVanishes | Rotations.HalfTurnAxis |
