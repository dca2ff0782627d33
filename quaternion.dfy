/** The value algebra of `CQuaternion`.

    `Quat` is the value of a quaternion `w + x i + y j + z k`. The functions
    here are the read-only members (`dot`, `lengthSquared`, `length`,
    `isIdentity`, `multiplyVec3`) and the pure forms of the mutating ones
    (`conjugate`, `multiply`, `scale`, `add`, `normalize`, `inverse`), which
    the source also offers as static clone-then-mutate twins. */
module Quaternions {
  import opened RealMath
  import Vectors

  /** The tolerance the source compares lengths against. */
  const Epsilon: real := 1.0 / 64.0

  datatype Quat = Quat(w: real, x: real, y: real, z: real)

  /** `(1, 0, 0, 0)`, the default-constructed and `reset` value. */
  const Identity: Quat := Quat(1.0, 0.0, 0.0, 0.0)

  /** `(0, 0, 0, 0)`, what `inverse` writes on its zeroing branch. */
  const Nil: Quat := Quat(0.0, 0.0, 0.0, 0.0)

  /** The quaternion `0 + v`, whose vector part is `v`. */
  function Pure(v: Vectors.V3): Quat {
    Quat(0.0, v.x, v.y, v.z)
  }

  function VectorPart(q: Quat): Vectors.V3 {
    Vectors.V3(q.x, q.y, q.z)
  }

  function Dot(p: Quat, q: Quat): real {
    p.w * q.w + p.x * q.x + p.y * q.y + p.z * q.z
  }

  /** Squared norm: never negative, and zero only for `Nil`. */
  function LengthSquared(q: Quat): (r: real)
    ensures 0.0 <= r
    ensures r == 0.0 <==> q == Nil
  {
    SumOfFourSquares(q.w, q.x, q.y, q.z);
    q.w * q.w + q.x * q.x + q.y * q.y + q.z * q.z
  }

  lemma SumOfFourSquares(a: real, b: real, c: real, d: real)
    ensures 0.0 <= a * a + b * b + c * c + d * d
    ensures a * a + b * b + c * c + d * d == 0.0 <==> a == 0.0 && b == 0.0 && c == 0.0 && d == 0.0
  {
    SquareNonNegative(a);
    SquareNonNegative(b);
    SquareNonNegative(c);
    SquareNonNegative(d);
    if a != 0.0 {
      SquarePositive(a);
    } else if b != 0.0 {
      SquarePositive(b);
    } else if c != 0.0 {
      SquarePositive(c);
    } else if d != 0.0 {
      SquarePositive(d);
    }
  }

  /** The norm, through the library's `sqrt`. */
  function Length(lib: MathLib, q: Quat): (l: real)
    ensures SqrtLaws(lib.sqrt) ==> 0.0 <= l && l * l == LengthSquared(q)
  {
    lib.sqrt(LengthSquared(q))
  }

  /** `isIdentity`: exact comparison of all four components. */
  predicate IsIdentity(q: Quat) {
    q.w == 1.0 && q.x == 0.0 && q.y == 0.0 && q.z == 0.0
  }

  function Conjugated(q: Quat): Quat {
    Quat(q.w, -q.x, -q.y, -q.z)
  }

  /** The Hamilton product `p q`, component by component as `multiply`
      computes it. */
  function Product(p: Quat, q: Quat): Quat {
    Quat(p.w * q.w - p.x * q.x - p.y * q.y - p.z * q.z,
         p.w * q.x + p.x * q.w + p.y * q.z - p.z * q.y,
         p.w * q.y + p.y * q.w + p.z * q.x - p.x * q.z,
         p.w * q.z + p.z * q.w + p.x * q.y - p.y * q.x)
  }

  /** `Product` on quaternions written out component by component, so that
      a caller holding the eight numbers can match it term for term. */
  lemma ProductOfComponents(pw: real, px: real, py: real, pz: real,
                            qw: real, qx: real, qy: real, qz: real)
    ensures Product(Quat(pw, px, py, pz), Quat(qw, qx, qy, qz))
         == Quat(pw * qw - px * qx - py * qy - pz * qz,
                 pw * qx + px * qw + py * qz - pz * qy,
                 pw * qy + py * qw + pz * qx - px * qz,
                 pw * qz + pz * qw + px * qy - py * qx)
  {
  }

  function Scaled(q: Quat, s: real): Quat {
    Quat(q.w * s, q.x * s, q.y * s, q.z * s)
  }

  function Sum(p: Quat, q: Quat): Quat {
    Quat(p.w + q.w, p.x + q.x, p.y + q.y, p.z + q.z)
  }

  /** `normalize`: scale by the reciprocal of the length. The source has no
      zero-length guard, so a non-zero quaternion is required. */
  function Normalized(lib: MathLib, q: Quat): (r: Quat)
    requires SqrtLaws(lib.sqrt)
    requires q != Nil
    ensures LengthSquared(r) == 1.0
    ensures Scaled(r, Length(lib, q)) == q
  {
    SqrtPositive(lib.sqrt, LengthSquared(q));
    var l := Length(lib, q);
    var r := Scaled(q, 1.0 / l);
    assert Scaled(r, l) == q by {
      ReciprocalCancels(l, q.w);
      ReciprocalCancels(l, q.x);
      ReciprocalCancels(l, q.y);
      ReciprocalCancels(l, q.z);
    }
    LengthSquaredScaled(r, l);
    CancelFactor(l * l, LengthSquared(r), LengthSquared(q));
    r
  }

  lemma ReciprocalCancels(l: real, a: real)
    requires l != 0.0
    ensures a * (1.0 / l) * l == a
  {
  }

  /** `inverse`, with its guard as written: a quaternion whose length exceeds
      `Epsilon` becomes `Nil`, and any other is conjugated and scaled by
      `1 / length`. The source does not guard the division, so the zero
      quaternion, which reaches that branch, is excluded. */
  function Inverse(lib: MathLib, q: Quat): (r: Quat)
    requires SqrtLaws(lib.sqrt)
    requires q != Nil
    ensures Abs(Length(lib, q)) > Epsilon ==> r == Nil
    ensures Abs(Length(lib, q)) <= Epsilon ==> Product(q, r) == Quat(Length(lib, q), 0.0, 0.0, 0.0)
  {
    var l := Length(lib, q);
    if Abs(l) > Epsilon then
      Nil
    else
      SqrtPositive(lib.sqrt, LengthSquared(q));
      var r := Scaled(Conjugated(q), 1.0 / l);
      ProductScaledRight(q, Conjugated(q), 1.0 / l);
      ProductConjugate(q);
      assert l * l * (1.0 / l) == l;
      r
  }

  /** The reciprocal `conj(q) / |q|^2` that `inverse` evidently means: `Nil`
      below the tolerance and the true multiplicative inverse above it. */
  function Reciprocal(lib: MathLib, q: Quat): (r: Quat)
    requires SqrtLaws(lib.sqrt)
    ensures Abs(Length(lib, q)) >= Epsilon ==> Product(q, r) == Identity && Product(r, q) == Identity
    ensures Abs(Length(lib, q)) < Epsilon ==> r == Nil
  {
    var l := Length(lib, q);
    if Abs(l) < Epsilon then
      Nil
    else
      var r := Scaled(Conjugated(q), 1.0 / (l * l));
      ProductScaledRight(q, Conjugated(q), 1.0 / (l * l));
      ProductScaledLeft(Conjugated(q), q, 1.0 / (l * l));
      ProductConjugate(q);
      assert l * l * (1.0 / (l * l)) == 1.0;
      r
  }

  /** `multiplyVec3`: `v + 2w (u x v) + 2 (u x (u x v))` with `u` the vector
      part, in the order the source scales and adds. */
  function Rotate(q: Quat, v: Vectors.V3): Vectors.V3 {
    var qvec := VectorPart(q);
    var uv := Vectors.CrossProduct(qvec, v);
    var uuv := Vectors.CrossProduct(qvec, uv);
    Vectors.Sum(Vectors.Sum(Vectors.Scaled(uv, 2.0 * q.w), v), Vectors.Scaled(uuv, 2.0))
  }

  // ---------------------------------------------------------------------
  // Properties of the algebra.

  lemma DotSymmetric(p: Quat, q: Quat)
    ensures Dot(p, q) == Dot(q, p)
  {
  }

  /** A quaternion dotted with itself is its squared length. */
  lemma DotSelf(q: Quat)
    ensures Dot(q, q) == LengthSquared(q)
  {
  }

  lemma ConjugateInvolution(q: Quat)
    ensures Conjugated(Conjugated(q)) == q
  {
  }

  /** Conjugation keeps `w` and negates the vector part. */
  lemma ConjugateParts(q: Quat)
    ensures Conjugated(q).w == q.w && VectorPart(Conjugated(q)) == Vectors.Negated(VectorPart(q))
  {
  }

  /** `q conj(q) = conj(q) q = |q|^2`. */
  lemma ProductConjugate(q: Quat)
    ensures Product(q, Conjugated(q)) == Quat(LengthSquared(q), 0.0, 0.0, 0.0)
    ensures Product(Conjugated(q), q) == Quat(LengthSquared(q), 0.0, 0.0, 0.0)
  {
  }

  lemma ProductIdentity(q: Quat)
    ensures Product(Identity, q) == q && Product(q, Identity) == q
  {
  }

  /** A scalar factor moves out of either side of a product. */
  lemma ProductScaledRight(p: Quat, q: Quat, s: real)
    ensures Product(p, Scaled(q, s)) == Scaled(Product(p, q), s)
  {
    ScalarProduct(q, s);
    ScalarProduct(Product(p, q), s);
    ProductAssociative(p, q, Scalar(s));
  }

  lemma ProductScaledLeft(p: Quat, q: Quat, s: real)
    ensures Product(Scaled(p, s), q) == Scaled(Product(p, q), s)
  {
    ScalarProduct(p, s);
    ScalarProduct(Product(p, q), s);
    ProductAssociative(Scalar(s), p, q);
  }

  /** The real number `s` as the quaternion `s + 0 i + 0 j + 0 k`. */
  function Scalar(s: real): Quat {
    Quat(s, 0.0, 0.0, 0.0)
  }

  /** Scaling is multiplication by a scalar quaternion, on either side. */
  lemma ScalarProduct(q: Quat, s: real)
    ensures Product(q, Scalar(s)) == Scaled(q, s)
    ensures Product(Scalar(s), q) == Scaled(q, s)
  {
  }

  /** Euler's four-square identity: the norm is multiplicative. */
  lemma ProductLengthSquared(p: Quat, q: Quat)
    ensures LengthSquared(Product(p, q)) == LengthSquared(p) * LengthSquared(q)
  {
    LengthSquaredOfProduct(p, q);
    FourSquareIdentity(p.w, p.x, p.y, p.z, q.w, q.x, q.y, q.z);
  }

  // The proofs of the product identities go one component at a time: each
  // nested product is first written out in the components of its factors,
  // and the resulting polynomial identity is proved over plain numbers.

  lemma LengthSquaredOfProduct(p: Quat, q: Quat)
    ensures LengthSquared(Product(p, q))
         == (p.w * q.w - p.x * q.x - p.y * q.y - p.z * q.z) * (p.w * q.w - p.x * q.x - p.y * q.y - p.z * q.z) + (p.w * q.x + p.x * q.w + p.y * q.z - p.z * q.y) * (p.w * q.x + p.x * q.w + p.y * q.z - p.z * q.y) + (p.w * q.y + p.y * q.w + p.z * q.x - p.x * q.z) * (p.w * q.y + p.y * q.w + p.z * q.x - p.x * q.z) + (p.w * q.z + p.z * q.w + p.x * q.y - p.y * q.x) * (p.w * q.z + p.z * q.w + p.x * q.y - p.y * q.x)
  {
    LengthSquaredComponents(Product(p, q));
    ProductSquareW(p, q);
    ProductSquareX(p, q);
    ProductSquareY(p, q);
    ProductSquareZ(p, q);
  }

  /** `LengthSquared` written out, for a quaternion given by a term. */
  lemma LengthSquaredComponents(r: Quat)
    ensures LengthSquared(r) == r.w * r.w + r.x * r.x + r.y * r.y + r.z * r.z
  {
  }

  lemma ProductSquareW(p: Quat, q: Quat)
    ensures Product(p, q).w * Product(p, q).w == (p.w * q.w - p.x * q.x - p.y * q.y - p.z * q.z) * (p.w * q.w - p.x * q.x - p.y * q.y - p.z * q.z)
  {
  }

  lemma ProductSquareX(p: Quat, q: Quat)
    ensures Product(p, q).x * Product(p, q).x == (p.w * q.x + p.x * q.w + p.y * q.z - p.z * q.y) * (p.w * q.x + p.x * q.w + p.y * q.z - p.z * q.y)
  {
  }

  lemma ProductSquareY(p: Quat, q: Quat)
    ensures Product(p, q).y * Product(p, q).y == (p.w * q.y + p.y * q.w + p.z * q.x - p.x * q.z) * (p.w * q.y + p.y * q.w + p.z * q.x - p.x * q.z)
  {
  }

  lemma ProductSquareZ(p: Quat, q: Quat)
    ensures Product(p, q).z * Product(p, q).z == (p.w * q.z + p.z * q.w + p.x * q.y - p.y * q.x) * (p.w * q.z + p.z * q.w + p.x * q.y - p.y * q.x)
  {
  }

  lemma FourSquareIdentity(pw: real, px: real, py: real, pz: real,
                           qw: real, qx: real, qy: real, qz: real)
    ensures (pw * qw - px * qx - py * qy - pz * qz) * (pw * qw - px * qx - py * qy - pz * qz) + (pw * qx + px * qw + py * qz - pz * qy) * (pw * qx + px * qw + py * qz - pz * qy) + (pw * qy + py * qw + pz * qx - px * qz) * (pw * qy + py * qw + pz * qx - px * qz) + (pw * qz + pz * qw + px * qy - py * qx) * (pw * qz + pz * qw + px * qy - py * qx)
         == (pw * pw + px * px + py * py + pz * pz) * (qw * qw + qx * qx + qy * qy + qz * qz)
  {
  }

  /** The Hamilton product is associative. */
  lemma ProductAssociative(p: Quat, q: Quat, r: Quat)
    ensures Product(Product(p, q), r) == Product(p, Product(q, r))
  {
    ProductAssociativeW(p, q, r);
    ProductAssociativeX(p, q, r);
    ProductAssociativeY(p, q, r);
    ProductAssociativeZ(p, q, r);
  }

  lemma ProductAssociativeW(p: Quat, q: Quat, r: Quat)
    ensures Product(Product(p, q), r).w == Product(p, Product(q, r)).w
  {
    ProductLeftNestedW(p, q, r);
    ProductRightNestedW(p, q, r);
    AssociativeIdentity(p.w, p.x, p.y, p.z, q.w, q.x, q.y, q.z, r.w, r.x, r.y, r.z);
  }

  lemma ProductAssociativeX(p: Quat, q: Quat, r: Quat)
    ensures Product(Product(p, q), r).x == Product(p, Product(q, r)).x
  {
    ProductLeftNestedX(p, q, r);
    ProductRightNestedX(p, q, r);
    AssociativeIdentity(p.w, p.x, p.y, p.z, q.w, q.x, q.y, q.z, r.w, r.x, r.y, r.z);
  }

  lemma ProductAssociativeY(p: Quat, q: Quat, r: Quat)
    ensures Product(Product(p, q), r).y == Product(p, Product(q, r)).y
  {
    ProductLeftNestedY(p, q, r);
    ProductRightNestedY(p, q, r);
    AssociativeIdentity(p.w, p.x, p.y, p.z, q.w, q.x, q.y, q.z, r.w, r.x, r.y, r.z);
  }

  lemma ProductAssociativeZ(p: Quat, q: Quat, r: Quat)
    ensures Product(Product(p, q), r).z == Product(p, Product(q, r)).z
  {
    ProductLeftNestedZ(p, q, r);
    ProductRightNestedZ(p, q, r);
    AssociativeIdentity(p.w, p.x, p.y, p.z, q.w, q.x, q.y, q.z, r.w, r.x, r.y, r.z);
  }

  lemma ProductLeftNestedW(p: Quat, q: Quat, r: Quat)
    ensures Product(Product(p, q), r).w
         == (p.w * q.w - p.x * q.x - p.y * q.y - p.z * q.z) * r.w - (p.w * q.x + p.x * q.w + p.y * q.z - p.z * q.y) * r.x - (p.w * q.y + p.y * q.w + p.z * q.x - p.x * q.z) * r.y - (p.w * q.z + p.z * q.w + p.x * q.y - p.y * q.x) * r.z
  {
    ProductOfComponents(p.w * q.w - p.x * q.x - p.y * q.y - p.z * q.z, p.w * q.x + p.x * q.w + p.y * q.z - p.z * q.y,
                        p.w * q.y + p.y * q.w + p.z * q.x - p.x * q.z, p.w * q.z + p.z * q.w + p.x * q.y - p.y * q.x,
                        r.w, r.x, r.y, r.z);
  }

  lemma ProductLeftNestedX(p: Quat, q: Quat, r: Quat)
    ensures Product(Product(p, q), r).x
         == (p.w * q.w - p.x * q.x - p.y * q.y - p.z * q.z) * r.x + (p.w * q.x + p.x * q.w + p.y * q.z - p.z * q.y) * r.w + (p.w * q.y + p.y * q.w + p.z * q.x - p.x * q.z) * r.z - (p.w * q.z + p.z * q.w + p.x * q.y - p.y * q.x) * r.y
  {
    ProductOfComponents(p.w * q.w - p.x * q.x - p.y * q.y - p.z * q.z, p.w * q.x + p.x * q.w + p.y * q.z - p.z * q.y,
                        p.w * q.y + p.y * q.w + p.z * q.x - p.x * q.z, p.w * q.z + p.z * q.w + p.x * q.y - p.y * q.x,
                        r.w, r.x, r.y, r.z);
  }

  lemma ProductLeftNestedY(p: Quat, q: Quat, r: Quat)
    ensures Product(Product(p, q), r).y
         == (p.w * q.w - p.x * q.x - p.y * q.y - p.z * q.z) * r.y + (p.w * q.y + p.y * q.w + p.z * q.x - p.x * q.z) * r.w + (p.w * q.z + p.z * q.w + p.x * q.y - p.y * q.x) * r.x - (p.w * q.x + p.x * q.w + p.y * q.z - p.z * q.y) * r.z
  {
    ProductOfComponents(p.w * q.w - p.x * q.x - p.y * q.y - p.z * q.z, p.w * q.x + p.x * q.w + p.y * q.z - p.z * q.y,
                        p.w * q.y + p.y * q.w + p.z * q.x - p.x * q.z, p.w * q.z + p.z * q.w + p.x * q.y - p.y * q.x,
                        r.w, r.x, r.y, r.z);
  }

  lemma ProductLeftNestedZ(p: Quat, q: Quat, r: Quat)
    ensures Product(Product(p, q), r).z
         == (p.w * q.w - p.x * q.x - p.y * q.y - p.z * q.z) * r.z + (p.w * q.z + p.z * q.w + p.x * q.y - p.y * q.x) * r.w + (p.w * q.x + p.x * q.w + p.y * q.z - p.z * q.y) * r.y - (p.w * q.y + p.y * q.w + p.z * q.x - p.x * q.z) * r.x
  {
    ProductOfComponents(p.w * q.w - p.x * q.x - p.y * q.y - p.z * q.z, p.w * q.x + p.x * q.w + p.y * q.z - p.z * q.y,
                        p.w * q.y + p.y * q.w + p.z * q.x - p.x * q.z, p.w * q.z + p.z * q.w + p.x * q.y - p.y * q.x,
                        r.w, r.x, r.y, r.z);
  }

  lemma ProductRightNestedW(p: Quat, q: Quat, r: Quat)
    ensures Product(p, Product(q, r)).w
         == p.w * (q.w * r.w - q.x * r.x - q.y * r.y - q.z * r.z) - p.x * (q.w * r.x + q.x * r.w + q.y * r.z - q.z * r.y) - p.y * (q.w * r.y + q.y * r.w + q.z * r.x - q.x * r.z) - p.z * (q.w * r.z + q.z * r.w + q.x * r.y - q.y * r.x)
  {
    ProductOfComponents(p.w, p.x, p.y, p.z,
                        q.w * r.w - q.x * r.x - q.y * r.y - q.z * r.z, q.w * r.x + q.x * r.w + q.y * r.z - q.z * r.y,
                        q.w * r.y + q.y * r.w + q.z * r.x - q.x * r.z, q.w * r.z + q.z * r.w + q.x * r.y - q.y * r.x);
  }

  lemma ProductRightNestedX(p: Quat, q: Quat, r: Quat)
    ensures Product(p, Product(q, r)).x
         == p.w * (q.w * r.x + q.x * r.w + q.y * r.z - q.z * r.y) + p.x * (q.w * r.w - q.x * r.x - q.y * r.y - q.z * r.z) + p.y * (q.w * r.z + q.z * r.w + q.x * r.y - q.y * r.x) - p.z * (q.w * r.y + q.y * r.w + q.z * r.x - q.x * r.z)
  {
    ProductOfComponents(p.w, p.x, p.y, p.z,
                        q.w * r.w - q.x * r.x - q.y * r.y - q.z * r.z, q.w * r.x + q.x * r.w + q.y * r.z - q.z * r.y,
                        q.w * r.y + q.y * r.w + q.z * r.x - q.x * r.z, q.w * r.z + q.z * r.w + q.x * r.y - q.y * r.x);
  }

  lemma ProductRightNestedY(p: Quat, q: Quat, r: Quat)
    ensures Product(p, Product(q, r)).y
         == p.w * (q.w * r.y + q.y * r.w + q.z * r.x - q.x * r.z) + p.y * (q.w * r.w - q.x * r.x - q.y * r.y - q.z * r.z) + p.z * (q.w * r.x + q.x * r.w + q.y * r.z - q.z * r.y) - p.x * (q.w * r.z + q.z * r.w + q.x * r.y - q.y * r.x)
  {
    ProductOfComponents(p.w, p.x, p.y, p.z,
                        q.w * r.w - q.x * r.x - q.y * r.y - q.z * r.z, q.w * r.x + q.x * r.w + q.y * r.z - q.z * r.y,
                        q.w * r.y + q.y * r.w + q.z * r.x - q.x * r.z, q.w * r.z + q.z * r.w + q.x * r.y - q.y * r.x);
  }

  lemma ProductRightNestedZ(p: Quat, q: Quat, r: Quat)
    ensures Product(p, Product(q, r)).z
         == p.w * (q.w * r.z + q.z * r.w + q.x * r.y - q.y * r.x) + p.z * (q.w * r.w - q.x * r.x - q.y * r.y - q.z * r.z) + p.x * (q.w * r.y + q.y * r.w + q.z * r.x - q.x * r.z) - p.y * (q.w * r.x + q.x * r.w + q.y * r.z - q.z * r.y)
  {
    ProductOfComponents(p.w, p.x, p.y, p.z,
                        q.w * r.w - q.x * r.x - q.y * r.y - q.z * r.z, q.w * r.x + q.x * r.w + q.y * r.z - q.z * r.y,
                        q.w * r.y + q.y * r.w + q.z * r.x - q.x * r.z, q.w * r.z + q.z * r.w + q.x * r.y - q.y * r.x);
  }

  lemma AssociativeIdentity(pw: real, px: real, py: real, pz: real,
                            qw: real, qx: real, qy: real, qz: real,
                            rw: real, rx: real, ry: real, rz: real)
    ensures (pw * qw - px * qx - py * qy - pz * qz) * rw - (pw * qx + px * qw + py * qz - pz * qy) * rx - (pw * qy + py * qw + pz * qx - px * qz) * ry - (pw * qz + pz * qw + px * qy - py * qx) * rz
         == pw * (qw * rw - qx * rx - qy * ry - qz * rz) - px * (qw * rx + qx * rw + qy * rz - qz * ry) - py * (qw * ry + qy * rw + qz * rx - qx * rz) - pz * (qw * rz + qz * rw + qx * ry - qy * rx)
    ensures (pw * qw - px * qx - py * qy - pz * qz) * rx + (pw * qx + px * qw + py * qz - pz * qy) * rw + (pw * qy + py * qw + pz * qx - px * qz) * rz - (pw * qz + pz * qw + px * qy - py * qx) * ry
         == pw * (qw * rx + qx * rw + qy * rz - qz * ry) + px * (qw * rw - qx * rx - qy * ry - qz * rz) + py * (qw * rz + qz * rw + qx * ry - qy * rx) - pz * (qw * ry + qy * rw + qz * rx - qx * rz)
    ensures (pw * qw - px * qx - py * qy - pz * qz) * ry + (pw * qy + py * qw + pz * qx - px * qz) * rw + (pw * qz + pz * qw + px * qy - py * qx) * rx - (pw * qx + px * qw + py * qz - pz * qy) * rz
         == pw * (qw * ry + qy * rw + qz * rx - qx * rz) + py * (qw * rw - qx * rx - qy * ry - qz * rz) + pz * (qw * rx + qx * rw + qy * rz - qz * ry) - px * (qw * rz + qz * rw + qx * ry - qy * rx)
    ensures (pw * qw - px * qx - py * qy - pz * qz) * rz + (pw * qz + pz * qw + px * qy - py * qx) * rw + (pw * qx + px * qw + py * qz - pz * qy) * ry - (pw * qy + py * qw + pz * qx - px * qz) * rx
         == pw * (qw * rz + qz * rw + qx * ry - qy * rx) + pz * (qw * rw - qx * rx - qy * ry - qz * rz) + px * (qw * ry + qy * rw + qz * rx - qx * rz) - py * (qw * rx + qx * rw + qy * rz - qz * ry)
  {
  }

  /** `conj(p q) = conj(q) conj(p)`. */
  lemma ConjugateOfProduct(p: Quat, q: Quat)
    ensures Conjugated(Product(p, q)) == Product(Conjugated(q), Conjugated(p))
  {
    ConjugateOfProductW(p, q);
    ConjugateOfProductX(p, q);
    ConjugateOfProductY(p, q);
    ConjugateOfProductZ(p, q);
  }

  lemma ConjugateOfProductW(p: Quat, q: Quat)
    ensures Conjugated(Product(p, q)).w == Product(Conjugated(q), Conjugated(p)).w
  {
  }

  lemma ConjugateOfProductX(p: Quat, q: Quat)
    ensures Conjugated(Product(p, q)).x == Product(Conjugated(q), Conjugated(p)).x
  {
  }

  lemma ConjugateOfProductY(p: Quat, q: Quat)
    ensures Conjugated(Product(p, q)).y == Product(Conjugated(q), Conjugated(p)).y
  {
  }

  lemma ConjugateOfProductZ(p: Quat, q: Quat)
    ensures Conjugated(Product(p, q)).z == Product(Conjugated(q), Conjugated(p)).z
  {
  }

  lemma ConjugateLengthSquared(q: Quat)
    ensures LengthSquared(Conjugated(q)) == LengthSquared(q)
  {
  }

  lemma ScaledOne(q: Quat)
    ensures Scaled(q, 1.0) == q
  {
  }

  lemma LengthSquaredScaled(q: Quat, s: real)
    ensures LengthSquared(Scaled(q, s)) == s * s * LengthSquared(q)
  {
    assert (q.w * s) * (q.w * s) + (q.x * s) * (q.x * s) + (q.y * s) * (q.y * s) + (q.z * s) * (q.z * s)
        == s * s * (q.w * q.w + q.x * q.x + q.y * q.y + q.z * q.z);
  }

  lemma SumCommutative(p: Quat, q: Quat)
    ensures Sum(p, q) == Sum(q, p)
  {
  }

  lemma SumNil(q: Quat)
    ensures Sum(q, Nil) == q
  {
  }

  /** `isIdentity` holds exactly of `(1, 0, 0, 0)`. */
  lemma IsIdentityExactly(q: Quat)
    ensures IsIdentity(q) <==> q == Identity
  {
  }

  /** The branch `inverse` takes depends only on the squared length:
      `|l| > 1/64` exactly when `|q|^2 > 1/4096`. */
  lemma InverseBranch(lib: MathLib, q: Quat)
    requires SqrtLaws(lib.sqrt)
    ensures Abs(Length(lib, q)) > Epsilon <==> LengthSquared(q) > Epsilon * Epsilon
  {
    var l := Length(lib, q);
    SquareMonotone(l, Epsilon);
  }

  /** As written, `inverse` sends every unit quaternion to `Nil`: the product
      with the original is then zero rather than the identity. */
  lemma InverseOfUnitIsNil(lib: MathLib, q: Quat)
    requires SqrtLaws(lib.sqrt)
    requires LengthSquared(q) == 1.0
    ensures Inverse(lib, q) == Nil
    ensures Product(q, Inverse(lib, q)) != Identity
  {
    SqrtIsRoot(lib.sqrt, 1.0, 1.0);
  }

  /** A unit quaternion's reciprocal is its conjugate. */
  lemma ReciprocalOfUnit(lib: MathLib, q: Quat)
    requires SqrtLaws(lib.sqrt)
    requires LengthSquared(q) == 1.0
    ensures Reciprocal(lib, q) == Conjugated(q)
  {
    SqrtIsRoot(lib.sqrt, 1.0, 1.0);
  }

  /** Normalising a unit quaternion leaves it unchanged. */
  lemma NormalizedUnit(lib: MathLib, q: Quat)
    requires SqrtLaws(lib.sqrt)
    requires LengthSquared(q) == 1.0
    ensures Normalized(lib, q) == q
  {
    SqrtIsRoot(lib.sqrt, 1.0, 1.0);
  }

  lemma RotateIdentity(v: Vectors.V3)
    ensures Rotate(Identity, v) == v
  {
    assert VectorPart(Identity) == Vectors.Zero;
    Vectors.CrossZero(v);
    Vectors.CrossZero(Vectors.Zero);
    Vectors.ScaledZero(2.0 * Identity.w);
    Vectors.ScaledZero(2.0);
    Vectors.SumZero(v);
  }

  /** `multiplyVec3` is the sandwich product `q (0 + v) conj(q)` up to the
      term `(|q|^2 - 1) v`, which vanishes for a unit quaternion. The scalar
      part of the sandwich is always zero. */
  lemma RotateSandwich(q: Quat, v: Vectors.V3)
    ensures Product(Product(q, Pure(v)), Conjugated(q))
         == Pure(Vectors.Sum(Rotate(q, v), Vectors.Scaled(v, LengthSquared(q) - 1.0)))
  {
    var p := Product(q, Pure(v));
    var uv := Vectors.CrossProduct(VectorPart(q), v);
    var uuv := Vectors.CrossProduct(VectorPart(q), uv);
    ProductPureRight(q, v);
    CrossOfVectorPart(q, v);
    CrossOfVectorPart(q, uv);
    SandwichComponents(q, v, p, uv, uuv);
    ProductConjugateRight(p, q);
    RotateShiftedExpanded(q, v, uv, uuv);
  }

  /** The components of `p conj(q)` with `p = q (0 + v)` against those of
      `Rotate(q, v) + (|q|^2 - 1) v`, given the two cross products
      `multiplyVec3` computes. */
  lemma SandwichComponents(q: Quat, v: Vectors.V3, p: Quat, uv: Vectors.V3, uuv: Vectors.V3)
    requires p == Quat(-(q.x * v.x) - q.y * v.y - q.z * v.z, q.w * v.x + q.y * v.z - q.z * v.y,
                       q.w * v.y + q.z * v.x - q.x * v.z, q.w * v.z + q.x * v.y - q.y * v.x)
    requires uv == Vectors.V3(q.y * v.z - q.z * v.y, q.z * v.x - q.x * v.z, q.x * v.y - q.y * v.x)
    requires uuv == Vectors.V3(q.y * uv.z - q.z * uv.y, q.z * uv.x - q.x * uv.z, q.x * uv.y - q.y * uv.x)
    ensures p.w * q.w + p.x * q.x + p.y * q.y + p.z * q.z == 0.0
    ensures -(p.w * q.x) + p.x * q.w - p.y * q.z + p.z * q.y
         == uv.x * (2.0 * q.w) + v.x + uuv.x * 2.0 + v.x * (q.w * q.w + q.x * q.x + q.y * q.y + q.z * q.z - 1.0)
    ensures -(p.w * q.y) + p.y * q.w - p.z * q.x + p.x * q.z
         == uv.y * (2.0 * q.w) + v.y + uuv.y * 2.0 + v.y * (q.w * q.w + q.x * q.x + q.y * q.y + q.z * q.z - 1.0)
    ensures -(p.w * q.z) + p.z * q.w - p.x * q.y + p.y * q.x
         == uv.z * (2.0 * q.w) + v.z + uuv.z * 2.0 + v.z * (q.w * q.w + q.x * q.x + q.y * q.y + q.z * q.z - 1.0)
  {
    SandwichIdentity(q.w, q.x, q.y, q.z, v.x, v.y, v.z, p.w, p.x, p.y, p.z, uv.x, uv.y, uv.z, uuv.x, uuv.y, uuv.z);
  }

  /** `Rotate(q, v) + (|q|^2 - 1) v` in terms of the two cross products
      `multiplyVec3` computes. */
  lemma RotateShiftedExpanded(q: Quat, v: Vectors.V3, uv: Vectors.V3, uuv: Vectors.V3)
    requires uv == Vectors.CrossProduct(VectorPart(q), v) && uuv == Vectors.CrossProduct(VectorPart(q), uv)
    ensures Pure(Vectors.Sum(Rotate(q, v), Vectors.Scaled(v, LengthSquared(q) - 1.0)))
         == Quat(0.0,
                 uv.x * (2.0 * q.w) + v.x + uuv.x * 2.0 + v.x * (q.w * q.w + q.x * q.x + q.y * q.y + q.z * q.z - 1.0),
                 uv.y * (2.0 * q.w) + v.y + uuv.y * 2.0 + v.y * (q.w * q.w + q.x * q.x + q.y * q.y + q.z * q.z - 1.0),
                 uv.z * (2.0 * q.w) + v.z + uuv.z * 2.0 + v.z * (q.w * q.w + q.x * q.x + q.y * q.y + q.z * q.z - 1.0))
  {
    RotateParts(q, v, uv, uuv);
    ScaledByLengthSquared(q, v);
  }

  /** The four components of `q (0 + v) conj(q)` against those of
      `Rotate(q, v) + (|q|^2 - 1) v`, over plain numbers: `a`..`d` are
      the components of `q (0 + v)`, `e`..`g` those of `u x v` and `h`..`j`
      those of `u x (u x v)`, with `u` the vector part of `q`. */
  lemma SandwichIdentity(qw: real, qx: real, qy: real, qz: real, vx: real, vy: real, vz: real,
                         a: real, b: real, c: real, d: real,
                         e: real, f: real, g: real, h: real, i: real, j: real)
    requires a == -(qx * vx) - qy * vy - qz * vz && b == qw * vx + qy * vz - qz * vy
    requires c == qw * vy + qz * vx - qx * vz && d == qw * vz + qx * vy - qy * vx
    requires e == qy * vz - qz * vy && f == qz * vx - qx * vz && g == qx * vy - qy * vx
    requires h == qy * g - qz * f && i == qz * e - qx * g && j == qx * f - qy * e
    ensures a * qw + b * qx + c * qy + d * qz == 0.0
    ensures -(a * qx) + b * qw - c * qz + d * qy
         == e * (2.0 * qw) + vx + h * 2.0 + vx * (qw * qw + qx * qx + qy * qy + qz * qz - 1.0)
    ensures -(a * qy) + c * qw - d * qx + b * qz
         == f * (2.0 * qw) + vy + i * 2.0 + vy * (qw * qw + qx * qx + qy * qy + qz * qz - 1.0)
    ensures -(a * qz) + d * qw - b * qy + c * qx
         == g * (2.0 * qw) + vz + j * 2.0 + vz * (qw * qw + qx * qx + qy * qy + qz * qz - 1.0)
  {
  }

  /** The cross product of the vector part of `q` with `v`, written out. */
  lemma CrossOfVectorPart(q: Quat, v: Vectors.V3)
    ensures Vectors.CrossProduct(VectorPart(q), v)
         == Vectors.V3(q.y * v.z - q.z * v.y, q.z * v.x - q.x * v.z, q.x * v.y - q.y * v.x)
  {
  }

  /** `multiplyVec3` in terms of the two cross products it computes. */
  lemma RotateParts(q: Quat, v: Vectors.V3, uv: Vectors.V3, uuv: Vectors.V3)
    requires uv == Vectors.CrossProduct(VectorPart(q), v) && uuv == Vectors.CrossProduct(VectorPart(q), uv)
    ensures Rotate(q, v) == Vectors.V3(uv.x * (2.0 * q.w) + v.x + uuv.x * 2.0,
                                       uv.y * (2.0 * q.w) + v.y + uuv.y * 2.0,
                                       uv.z * (2.0 * q.w) + v.z + uuv.z * 2.0)
  {
    Vectors.ScaledBy(uv, 2.0 * q.w, 2.0 * q.w);
    Vectors.ScaledBy(uuv, 2.0, 2.0);
  }

  /** `q (0 + v)`, expanded. */
  lemma ProductPureRight(q: Quat, v: Vectors.V3)
    ensures Product(q, Pure(v)) == Quat(-(q.x * v.x) - q.y * v.y - q.z * v.z, q.w * v.x + q.y * v.z - q.z * v.y,
                                        q.w * v.y + q.z * v.x - q.x * v.z, q.w * v.z + q.x * v.y - q.y * v.x)
  {
  }

  /** `p conj(q)`, expanded. */
  lemma ProductConjugateRight(p: Quat, q: Quat)
    ensures Product(p, Conjugated(q))
         == Quat(p.w * q.w + p.x * q.x + p.y * q.y + p.z * q.z,
                 -(p.w * q.x) + p.x * q.w - p.y * q.z + p.z * q.y,
                 -(p.w * q.y) + p.y * q.w - p.z * q.x + p.x * q.z,
                 -(p.w * q.z) + p.z * q.w - p.x * q.y + p.y * q.x)
  {
  }

  lemma ScaledByLengthSquared(q: Quat, v: Vectors.V3)
    ensures Vectors.Scaled(v, LengthSquared(q) - 1.0)
         == Vectors.V3(v.x * (q.w * q.w + q.x * q.x + q.y * q.y + q.z * q.z - 1.0),
                       v.y * (q.w * q.w + q.x * q.x + q.y * q.y + q.z * q.z - 1.0),
                       v.z * (q.w * q.w + q.x * q.x + q.y * q.y + q.z * q.z - 1.0))
  {
    LengthSquaredComponents(q);
    Vectors.ScaledBy(v, LengthSquared(q) - 1.0, q.w * q.w + q.x * q.x + q.y * q.y + q.z * q.z - 1.0);
  }

  lemma RotateUnitSandwich(q: Quat, v: Vectors.V3)
    requires LengthSquared(q) == 1.0
    ensures Product(Product(q, Pure(v)), Conjugated(q)) == Pure(Rotate(q, v))
  {
    RotateSandwich(q, v);
    var r := Rotate(q, v);
    assert Vectors.Sum(r, Vectors.Scaled(v, 0.0)) == r;
  }

  /** A unit quaternion rotates without changing lengths. */
  lemma RotatePreservesLength(q: Quat, v: Vectors.V3)
    requires LengthSquared(q) == 1.0
    ensures Vectors.LengthSquared(Rotate(q, v)) == Vectors.LengthSquared(v)
  {
    RotateUnitSandwich(q, v);
    ProductLengthSquared(q, Pure(v));
    ProductLengthSquared(Product(q, Pure(v)), Conjugated(q));
    ConjugateLengthSquared(q);
    assert LengthSquared(Pure(Rotate(q, v))) == Vectors.LengthSquared(Rotate(q, v));
    assert LengthSquared(Pure(v)) == Vectors.LengthSquared(v);
  }

  /** `(0 + v) q`, expanded. */
  lemma ProductPureLeft(v: Vectors.V3, q: Quat)
    ensures Product(Pure(v), q) == Quat(-(v.x * q.x) - v.y * q.y - v.z * q.z, v.x * q.w + v.y * q.z - v.z * q.y,
                                        v.y * q.w + v.z * q.x - v.x * q.z, v.z * q.w + v.x * q.y - v.y * q.x)
  {
  }

  /** A scalar multiple of `p` takes `v` to `w` whenever `p` does:
      `p (0 + v) = (0 + w) p` survives scaling `p`. */
  lemma IntertwinedScaled(p: Quat, v: Vectors.V3, w: Vectors.V3, k: real)
    requires Product(p, Pure(v)) == Product(Pure(w), p)
    ensures Product(Scaled(p, k), Pure(v)) == Product(Pure(w), Scaled(p, k))
  {
    ProductScaledLeft(p, Pure(v), k);
    ProductScaledRight(Pure(w), p, k);
  }

  /** A unit quaternion `q` with `q (0 + v) = (0 + w) q` rotates `v` onto `w`. */
  lemma RotateIntertwined(q: Quat, v: Vectors.V3, w: Vectors.V3)
    requires LengthSquared(q) == 1.0
    requires Product(q, Pure(v)) == Product(Pure(w), q)
    ensures Rotate(q, v) == w
  {
    RotateUnitSandwich(q, v);
    ProductAssociative(Pure(w), q, Conjugated(q));
    ProductConjugate(q);
    ProductIdentity(Pure(w));
    assert Pure(Rotate(q, v)) == Pure(w);
    assert VectorPart(Pure(Rotate(q, v))) == Rotate(q, v);
  }

  /** Rotating by `p q` is rotating by `q`, then by `p`. */
  lemma RotateProduct(p: Quat, q: Quat, v: Vectors.V3)
    requires LengthSquared(p) == 1.0 && LengthSquared(q) == 1.0
    ensures Rotate(Product(p, q), v) == Rotate(p, Rotate(q, v))
  {
    var pq := Product(p, q);
    ProductLengthSquared(p, q);
    var u := Rotate(q, v);
    calc {
      Pure(Rotate(pq, v));
      { RotateUnitSandwich(pq, v); }
      Product(Product(pq, Pure(v)), Conjugated(pq));
      { ConjugateOfProduct(p, q); }
      Product(Product(pq, Pure(v)), Product(Conjugated(q), Conjugated(p)));
      { ProductAssociative(p, q, Pure(v)); }
      Product(Product(p, Product(q, Pure(v))), Product(Conjugated(q), Conjugated(p)));
      { ProductAssociative(Product(p, Product(q, Pure(v))), Conjugated(q), Conjugated(p)); }
      Product(Product(Product(p, Product(q, Pure(v))), Conjugated(q)), Conjugated(p));
      { ProductAssociative(p, Product(q, Pure(v)), Conjugated(q)); }
      Product(Product(p, Product(Product(q, Pure(v)), Conjugated(q))), Conjugated(p));
      { RotateUnitSandwich(q, v); }
      Product(Product(p, Pure(u)), Conjugated(p));
      { RotateUnitSandwich(p, u); }
      Pure(Rotate(p, u));
    }
  }
}
