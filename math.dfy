/** Scalar helpers of the geometry core (lib/math.hpp), over exact reals. */
module RtMath {

  /** The default tolerance of float_eq, 0.00001. */
  const DefaultEpsilon: real := 0.00001

  /** abs_constexpr: the value itself when positive, its negation otherwise. */
  function Abs(value: real): (r: real)
    ensures r >= 0.0
    ensures r == value || r == -value
    ensures value > 0.0 ==> r == value
  {
    if value > 0.0 then value else -value
  }

  /** float_eq: a and b are equal when they differ by strictly less than epsilon. */
  predicate FloatEq(a: real, b: real, epsilon: real)
  {
    Abs(a - b) < epsilon
  }

  /** float_eq with its default epsilon. */
  predicate NearlyEq(a: real, b: real)
  {
    FloatEq(a, b, DefaultEpsilon)
  }

  /**
   * Quotient of two floats. IEEE arithmetic gives an infinity or NaN for a
   * zero divisor, which reals cannot represent; here that case gives 0.
   */
  function Quotient(p: real, q: real): (r: real)
    ensures q != 0.0 ==> r * q == p
  {
    if q == 0.0 then 0.0 else p / q
  }

  /** What std::sqrtf promises here: a non-negative root of every non-negative argument. */
  ghost predicate IsSqrt(sqrt: real -> real)
  {
    forall d :: d >= 0.0 ==> sqrt(d) >= 0.0 && sqrt(d) * sqrt(d) == d
  }

  /** A square is never negative. */
  lemma {:induction false} SquareNonNegative(a: real)
    ensures a * a >= 0.0
  {
    if a < 0.0 {
      assert a * a == (-a) * (-a);
    }
  }

  /** A product is zero only if a factor is. */
  lemma {:induction false} ZeroFactor(p: real, q: real)
    requires p * q == 0.0 && q != 0.0
    ensures p == 0.0
  {
    assert p == (p * q) / q;
  }

  /** Dividing a square twice by its root gives 1. */
  lemma {:induction false} InverseSquare(m: real, d: real)
    requires m != 0.0 && d == m * m
    ensures (1.0 / m) * ((1.0 / m) * d) == 1.0
  {
    assert (1.0 / m) * m == 1.0;
    assert (1.0 / m) * (m * m) == m;
  }

  /** Two non-negative numbers with the same square are equal. */
  lemma {:induction false} SameSquare(s: real, v: real)
    requires s >= 0.0 && v >= 0.0 && s * s == v * v
    ensures s == v
  {
    if s + v != 0.0 {
      assert (s - v) * (s + v) == s * s - v * v;
      ZeroFactor(s - v, s + v);
    }
  }

  /** Only zero squares to zero. */
  lemma {:induction false} SquareZero(a: real)
    requires a * a == 0.0
    ensures a == 0.0
  {
    assert Abs(a) * Abs(a) == a * a;
    SameSquare(Abs(a), 0.0);
  }

  /** The root of a non-negative square is the number itself. */
  lemma {:induction false} SqrtOfSquare(sqrt: real -> real, v: real)
    requires IsSqrt(sqrt) && v >= 0.0
    ensures sqrt(v * v) == v
  {
    var d := v * v;
    assert d >= 0.0;
    SameSquare(sqrt(d), v);
  }

  /** float_eq holds exactly when a and b lie strictly within epsilon of each other. */
  lemma FloatEqMeaning(a: real, b: real, epsilon: real)
    ensures FloatEq(a, b, epsilon) <==> (a - epsilon < b && b < a + epsilon)
  {
  }

  /** float_eq does not depend on the order of its arguments. */
  lemma FloatEqSymmetric(a: real, b: real, epsilon: real)
    ensures FloatEq(a, b, epsilon) <==> FloatEq(b, a, epsilon)
  {
  }

  /** Every value is float_eq to itself, for any positive epsilon. */
  lemma FloatEqReflexive(a: real, epsilon: real)
    requires epsilon > 0.0
    ensures FloatEq(a, a, epsilon)
  {
  }

  /** The strict comparison: a difference of exactly epsilon is not equal. */
  lemma FloatEqStrict(a: real, epsilon: real)
    ensures !FloatEq(a, a + epsilon, epsilon)
  {
  }

  /** abs_constexpr on the regression values 5, 0 and -5. */
  lemma AbsRegression()
    ensures Abs(5.0) == 5.0 && Abs(0.0) == 0.0 && Abs(-5.0) == 5.0
  {
  }

  /** The regression values of float_eq with the default and with a tighter epsilon. */
  lemma FloatEqRegression()
    ensures NearlyEq(1.0, 1.0)
    ensures !NearlyEq(1.0, 1.1)
    ensures !NearlyEq(1.0, 1.0001)
    ensures NearlyEq(1.0, 1.000001)
    ensures !FloatEq(1.0, 1.000001, 0.0000001)
  {
  }
}
