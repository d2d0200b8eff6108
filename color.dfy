/** RGB colour values (lib/color.hpp): three float channels, all operators componentwise. */
module Colors {
  import opened RtMath

  datatype Color = Color(r: real, g: real, b: real)

  /** The value of a default-constructed, zero-initialised colour. */
  const Black: Color := Color(0.0, 0.0, 0.0)

  /** operator==: float_eq with the default epsilon on each of r, g, b. */
  predicate Eq(c: Color, other: Color)
  {
    NearlyEq(c.r, other.r) && NearlyEq(c.g, other.g) && NearlyEq(c.b, other.b)
  }

  /** operator!=: the negation of operator==. */
  predicate Ne(c: Color, other: Color)
  {
    !Eq(c, other)
  }

  /** Binary operator+. */
  function Add(c: Color, other: Color): Color
  {
    Color(c.r + other.r, c.g + other.g, c.b + other.b)
  }

  /** Binary operator-. */
  function Sub(c: Color, other: Color): Color
  {
    Color(c.r - other.r, c.g - other.g, c.b - other.b)
  }

  /** operator* on two colours (the Hadamard product). */
  function Mul(c: Color, other: Color): Color
  {
    Color(c.r * other.r, c.g * other.g, c.b * other.b)
  }

  /** operator* with a scalar. */
  function Scale(c: Color, s: real): Color
  {
    Color(c.r * s, c.g * s, c.b * s)
  }

  /** operator/ with a scalar. */
  function Div(c: Color, s: real): Color
    requires s != 0.0
  {
    Color(c.r / s, c.g / s, c.b / s)
  }

  /** != holds exactly when some channel differs by at least the default epsilon. */
  lemma NeMeaning(c: Color, other: Color)
    ensures Ne(c, other) <==> !(Abs(c.r - other.r) < DefaultEpsilon
                               && Abs(c.g - other.g) < DefaultEpsilon
                               && Abs(c.b - other.b) < DefaultEpsilon)
  {
  }

  /** Colour equality is reflexive and symmetric; != is irreflexive. */
  lemma EqReflexiveSymmetric(c: Color, other: Color)
    ensures Eq(c, c) && !Ne(c, c)
    ensures Eq(c, other) <==> Eq(other, c)
  {
  }

  /** Subtraction undoes addition; addition and the colour product commute. */
  lemma AddSubInverse(c: Color, other: Color)
    ensures Sub(Add(c, other), other) == c
    ensures Add(c, other) == Add(other, c)
    ensures Mul(c, other) == Mul(other, c)
  {
  }

  /** Scaling is multiplication by a grey colour. */
  lemma ScaleIsMulByGrey(c: Color, s: real)
    ensures Scale(c, s) == Mul(c, Color(s, s, s))
  {
  }

  /** Division by s is multiplication by 1/s, so c / 2 == c * 0.5; multiplying back by s restores c. */
  lemma DivIsScaleByInverse(c: Color, s: real)
    requires s != 0.0
    ensures Div(c, s) == Scale(c, 1.0 / s)
    ensures Scale(Div(c, s), s) == c
  {
  }

  /** The regression values of == and != on (1, 2, 3) and (3, 4, 5). */
  lemma ComparisonRegression()
    ensures Eq(Color(1.0, 2.0, 3.0), Color(1.0, 2.0, 3.0))
    ensures !Eq(Color(1.0, 2.0, 3.0), Color(3.0, 4.0, 5.0))
    ensures !Ne(Color(1.0, 2.0, 3.0), Color(1.0, 2.0, 3.0))
    ensures Ne(Color(1.0, 2.0, 3.0), Color(3.0, 4.0, 5.0))
  {
  }

  /** The regression values of the colour operators on (0.1, 0.2, 0.3) and (0.2, 0.3, 0.4). */
  lemma OperatorRegression()
    ensures Add(Color(0.1, 0.2, 0.3), Color(0.2, 0.3, 0.4)) == Color(0.3, 0.5, 0.7)
    ensures Sub(Color(0.1, 0.2, 0.3), Color(0.2, 0.3, 0.4)) == Color(-0.1, -0.1, -0.1)
    ensures Mul(Color(0.1, 0.2, 0.3), Color(0.2, 0.3, 0.4)) == Color(0.1 * 0.2, 0.2 * 0.3, 0.3 * 0.4)
  {
  }

  /** The regression values of the scalar operators on (1, 2, 3). */
  lemma ScalarRegression()
    ensures Scale(Color(1.0, 2.0, 3.0), 2.0) == Color(2.0, 4.0, 6.0)
    ensures Scale(Color(1.0, 2.0, 3.0), 0.5) == Color(0.5, 1.0, 1.5)
    ensures Div(Color(1.0, 2.0, 3.0), 2.0) == Color(0.5, 1.0, 1.5)
    ensures Div(Color(1.0, 2.0, 3.0), 0.5) == Color(2.0, 4.0, 6.0)
  {
  }
}
