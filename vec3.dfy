/** The three-component vector `CVec3`.

    `V3` is the value of a vector and the functions over it are the read-only
    members (`dot`, `lengthSquared`, `length`) and the pure forms of the
    mutating ones; `Vec3` is the object whose in-place methods (`normalize`,
    `cross`, `scale`, `add`, `clone`) overwrite `x`, `y` and `z`. */
module Vectors {
  import opened RealMath

  datatype V3 = V3(x: real, y: real, z: real)

  const Zero: V3 := V3(0.0, 0.0, 0.0)

  function Dot(a: V3, b: V3): real {
    a.x * b.x + a.y * b.y + a.z * b.z
  }

  /** Squared Euclidean norm: never negative, and zero only for the zero vector. */
  function LengthSquared(a: V3): (r: real)
    ensures 0.0 <= r
    ensures r == 0.0 <==> a == Zero
  {
    SumOfSquares(a.x, a.y, a.z);
    a.x * a.x + a.y * a.y + a.z * a.z
  }

  /** A sum of three squares is never negative, and it is zero only when all
      three numbers are. */
  lemma SumOfSquares(p: real, q: real, r: real)
    ensures 0.0 <= p * p + q * q + r * r
    ensures p * p + q * q + r * r == 0.0 <==> p == 0.0 && q == 0.0 && r == 0.0
  {
    SquareNonNegative(p);
    SquareNonNegative(q);
    SquareNonNegative(r);
    if p != 0.0 {
      SquarePositive(p);
    } else if q != 0.0 {
      SquarePositive(q);
    } else if r != 0.0 {
      SquarePositive(r);
    }
  }

  /** Euclidean norm, through the library's `sqrtf`. */
  function Length(lib: MathLib, a: V3): (l: real)
    ensures SqrtLaws(lib.sqrt) ==> 0.0 <= l && l * l == LengthSquared(a)
  {
    lib.sqrt(LengthSquared(a))
  }

  /** Right-handed cross product; the result is orthogonal to both operands. */
  function CrossProduct(a: V3, b: V3): V3 {
    V3(a.y * b.z - a.z * b.y,
       a.z * b.x - a.x * b.z,
       a.x * b.y - a.y * b.x)
  }

  function Scaled(a: V3, s: real): V3 {
    V3(a.x * s, a.y * s, a.z * s)
  }

  /** Scaling by a factor given as one of two equal terms, written out in
      the other. */
  lemma ScaledBy(a: V3, k: real, m: real)
    requires k == m
    ensures Scaled(a, k) == V3(a.x * m, a.y * m, a.z * m)
  {
  }

  /** Each component divided by `s`; scaling back by `s` restores the
      vector. */
  function Divided(a: V3, s: real): (r: V3)
    requires s != 0.0
    ensures Scaled(r, s) == a
  {
    V3(a.x / s, a.y / s, a.z / s)
  }

  function Sum(a: V3, b: V3): V3 {
    V3(a.x + b.x, a.y + b.y, a.z + b.z)
  }

  function Negated(a: V3): V3 {
    V3(-a.x, -a.y, -a.z)
  }

  /** Each component divided by the length. There is no zero-length guard in
      the source, so a non-zero vector is required. The result is a unit
      vector pointing the same way as `a`. */
  function Normalized(lib: MathLib, a: V3): (r: V3)
    requires SqrtLaws(lib.sqrt)
    requires 0.0 < LengthSquared(a)
    ensures LengthSquared(r) == 1.0
    ensures Scaled(r, Length(lib, a)) == a
  {
    SqrtPositive(lib.sqrt, LengthSquared(a));
    var l := Length(lib, a);
    DividedByLength(lib, a, l);
    Divided(a, l)
  }

  lemma DotSymmetric(a: V3, b: V3)
    ensures Dot(a, b) == Dot(b, a)
  {
  }

  lemma DotSelf(a: V3)
    ensures Dot(a, a) == LengthSquared(a)
  {
  }

  /** The cross product is orthogonal to both operands. */
  lemma CrossOrthogonal(a: V3, b: V3)
    ensures Dot(CrossProduct(a, b), a) == 0.0 && Dot(CrossProduct(a, b), b) == 0.0
  {
  }

  lemma CrossAntiCommutative(a: V3, b: V3)
    ensures CrossProduct(a, b) == Negated(CrossProduct(b, a))
  {
  }

  lemma CrossSelfIsZero(a: V3)
    ensures CrossProduct(a, a) == Zero
  {
  }

  /** Lagrange's identity: the squared length of a cross product. */
  lemma CrossLengthSquared(a: V3, b: V3)
    ensures LengthSquared(CrossProduct(a, b))
         == LengthSquared(a) * LengthSquared(b) - Dot(a, b) * Dot(a, b)
  {
  }

  lemma CrossZero(a: V3)
    ensures CrossProduct(Zero, a) == Zero
  {
  }

  lemma ScaledZero(s: real)
    ensures Scaled(Zero, s) == Zero
  {
  }

  lemma ScaledOne(a: V3)
    ensures Scaled(a, 1.0) == a
  {
  }

  lemma LengthSquaredScaled(a: V3, s: real)
    ensures LengthSquared(Scaled(a, s)) == s * s * LengthSquared(a)
  {
  }

  /** A vector divided by its own non-zero length is a unit vector. */
  lemma DividedByLength(lib: MathLib, a: V3, l: real)
    requires SqrtLaws(lib.sqrt)
    requires l == Length(lib, a) && l != 0.0
    ensures LengthSquared(Divided(a, l)) == 1.0
  {
    var r := Divided(a, l);
    LengthSquaredScaled(r, l);
    SquarePositive(l);
    CancelFactor(l * l, LengthSquared(r), LengthSquared(a));
  }

  lemma SumZero(a: V3)
    ensures Sum(a, Zero) == a && Sum(Zero, a) == a
  {
  }

  lemma SumCommutative(a: V3, b: V3)
    ensures Sum(a, b) == Sum(b, a)
  {
  }

  /** Normalising a unit vector leaves it unchanged. */
  lemma NormalizedUnit(lib: MathLib, a: V3)
    requires SqrtLaws(lib.sqrt)
    requires LengthSquared(a) == 1.0
    ensures Normalized(lib, a) == a
  {
    SqrtIsRoot(lib.sqrt, 1.0, 1.0);
  }

  /** A `CVec3` object. */
  class Vec3 {
    var x: real
    var y: real
    var z: real

    function Value(): V3
      reads this
    {
      V3(x, y, z)
    }

    constructor (x0: real, y0: real, z0: real)
      ensures Value() == V3(x0, y0, z0)
    {
      x, y, z := x0, y0, z0;
    }

    /** Copies this vector into `ptr`; this vector is left as it was. */
    method Clone(ptr: Vec3)
      modifies ptr
      ensures ptr.Value() == old(Value())
      ensures Value() == old(Value())
    {
      ptr.x := x;
      ptr.y := y;
      ptr.z := z;
    }

    method Normalize(lib: MathLib)
      requires SqrtLaws(lib.sqrt)
      requires 0.0 < LengthSquared(Value())
      modifies this
      ensures Value() == Normalized(lib, old(Value()))
      ensures LengthSquared(Value()) == 1.0
    {
      SqrtPositive(lib.sqrt, LengthSquared(Value()));
      var length := Length(lib, Value());
      x := x / length;
      y := y / length;
      z := z / length;
    }

    /** `v.clone()->normalize()`: a fresh unit copy of a non-zero vector. */
    static method NormalizedCopy(lib: MathLib, v: Vec3) returns (r: Vec3)
      requires SqrtLaws(lib.sqrt)
      requires 0.0 < LengthSquared(v.Value())
      ensures fresh(r)
      ensures r.Value() == Normalized(lib, v.Value())
    {
      r := new Vec3(0.0, 0.0, 0.0);
      v.Clone(r);
      r.Normalize(lib);
    }

    /** The static `CVec3::cross(a, b)` that the quaternion code calls:
        a fresh copy of `a`, crossed with `b`. Neither operand changes. */
    static method CrossOf(a: Vec3, b: Vec3) returns (c: Vec3)
      ensures fresh(c)
      ensures c.Value() == CrossProduct(a.Value(), b.Value())
    {
      c := new Vec3(0.0, 0.0, 0.0);
      a.Clone(c);
      c.Cross(b);
    }

    /** All three components are computed before any is written, so the
        result is the cross product of the old values even when `other` is
        this very vector. */
    method Cross(other: Vec3)
      modifies this
      ensures Value() == CrossProduct(old(Value()), old(other.Value()))
    {
      var cx := y * other.z - z * other.y;
      var cy := z * other.x - x * other.z;
      var cz := x * other.y - y * other.x;
      x := cx;
      y := cy;
      z := cz;
    }

    method Scale(s: real)
      modifies this
      ensures Value() == Scaled(old(Value()), s)
    {
      x := x * s;
      y := y * s;
      z := z * s;
    }

    /** Component by component; each component of `other` is read before the
        same component of this vector is written, so `v.Add(v)` doubles `v`. */
    method Add(other: Vec3)
      modifies this
      ensures Value() == Sum(old(Value()), old(other.Value()))
    {
      x := x + other.x;
      y := y + other.y;
      z := z + other.z;
    }
  }
}
