/** The parts of the C math library that the rotation code calls.

    `sqrt`, `sin`, `cos`, `acos` and the constant `M_PI` are not modelled: they
    are fields of a `MathLib` value that every caller passes in, so nothing in
    the model may rely on what they return beyond what a contract states. The
    only facts assumed of `sqrt` are collected in `SqrtLaws`; a member that
    needs them says so in its `requires`. */
module RealMath {

  /** The library routines, idealised over the reals. */
  datatype MathLib = MathLib(
    sqrt: real -> real,
    sin: real -> real,
    cos: real -> real,
    acos: real -> real,
    pi: real)

  /** `sqrt` returns the non-negative square root of a non-negative argument. */
  ghost predicate SqrtLaws(sqrt: real -> real) {
    forall r: real :: 0.0 <= r ==> 0.0 <= sqrt(r) && sqrt(r) * sqrt(r) == r
  }

  /** Zero, named. Sign facts about squares are stated against this constant
      rather than the literal `0.0`, so that the solver keeps them as
      inequalities between terms instead of simplifying them away. */
  const Naught: real := 0.0

  lemma ProductPositive(a: real, b: real)
    requires 0.0 < a && 0.0 < b
    ensures Naught < a * b
  {
  }

  lemma SquareNonNegative(a: real)
    ensures Naught <= a * a
  {
  }

  lemma SquarePositive(a: real)
    requires a != 0.0
    ensures Naught < a * a
  {
    if a < 0.0 {
      ProductPositive(-a, -a);
    } else {
      ProductPositive(a, a);
    }
  }

  /** A positive factor cancels: from `m * u == n` and `m == n`, `u` is one. */
  lemma CancelFactor(m: real, u: real, n: real)
    requires 0.0 < m && m == n && m * u == n
    ensures u == 1.0
  {
    assert m * (u - 1.0) == 0.0;
  }

  /** For non-negative `a` and positive `e`, comparing squares compares the
      numbers. */
  lemma SquareMonotone(a: real, e: real)
    requires 0.0 <= a && 0.0 < e
    ensures a > e <==> a * a > e * e
  {
  }

  /** C++ `abs` on a float. */
  function Abs(r: real): (a: real)
    ensures 0.0 <= a
    ensures a == r || a == -r
  {
    if r < 0.0 then -r else r
  }

  /** Any non-negative root of `r` is the one `sqrt` returns. */
  lemma SqrtIsRoot(sqrt: real -> real, r: real, s: real)
    requires SqrtLaws(sqrt)
    requires 0.0 <= s && s * s == r
    ensures sqrt(r) == s
  {
    var t := sqrt(r);
    assert 0.0 <= t && t * t == r;
    assert (t - s) * (t + s) == 0.0;
    if t + s == 0.0 {
      assert t == 0.0 && s == 0.0;
    } else {
      assert t - s == 0.0;
    }
  }

  /** The square root of a positive number is positive, so it can be divided by. */
  lemma SqrtPositive(sqrt: real -> real, r: real)
    requires SqrtLaws(sqrt)
    requires 0.0 < r
    ensures 0.0 < sqrt(r)
  {
    var t := sqrt(r);
    assert 0.0 <= t && t * t == r;
  }
}
