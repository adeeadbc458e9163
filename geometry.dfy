/** Two-dimensional vectors (pygame's Vector2) taken as exact values, and the
    floating-point primitives of Python's `math` module left uninterpreted. */
module Geometry {

  /** A pygame Vector2 as a value: two exact coordinates. */
  datatype Vec = Vec(x: real, y: real)

  const Zero: Vec := Vec(0.0, 0.0)

  function Add(a: Vec, b: Vec): Vec { Vec(a.x + b.x, a.y + b.y) }

  function Sub(a: Vec, b: Vec): Vec { Vec(a.x - b.x, a.y - b.y) }

  function Scale(a: Vec, k: real): Vec { Vec(a.x * k, a.y * k) }

  /** Real multiplication behind a name, so that the solver treats a square
      `Mul(a, a)` as one term. */
  function Mul(a: real, b: real): real { a * b }

  function Dot(a: Vec, b: Vec): real { Mul(a.x, b.x) + Mul(a.y, b.y) }

  /** The primitives of Python's `math` module that the program calls. They
      are floating-point operations and stay uninterpreted: every operation
      that needs one takes a `Math` value. */
  datatype Math = Math(sqrt: real -> real, atan2: (real, real) -> real, cos: real -> real, sin: real -> real)
  {
    /** What the model may assume of `sqrt`: it is nonnegative on nonnegative
        arguments and is zero exactly at zero. */
    ghost predicate Sound()
    {
      forall t :: 0.0 <= t ==> 0.0 <= sqrt(t) && (sqrt(t) == 0.0 <==> t == 0.0)
    }
  }

  /** Vector2.length(). */
  function Length(v: Vec, m: Math): real
  {
    m.sqrt(Dot(v, v))
  }

  /** Vector2.normalize(), given the vector's nonzero length. */
  function Normalize(v: Vec, length: real): Vec
    requires length != 0.0
  {
    Scale(v, 1.0 / length)
  }

  lemma ProductPositive(a: real, b: real)
    requires a > 0.0 && b > 0.0
    ensures Mul(a, b) > 0.0
  {
  }

  lemma SquareSign(a: real)
    ensures a != 0.0 ==> Mul(a, a) > 0.0
    ensures a == 0.0 ==> Mul(a, a) == 0.0
  {
    if a > 0.0 {
      ProductPositive(a, a);
    } else if a < 0.0 {
      ProductPositive(-a, -a);
      assert Mul(a, a) == Mul(-a, -a);
    }
  }

  /** The squared length is never negative and is zero only for the zero vector. */
  lemma SelfDotZero(v: Vec)
    ensures Dot(v, v) >= 0.0
    ensures Dot(v, v) == 0.0 <==> v == Zero
  {
    SquareSign(v.x);
    SquareSign(v.y);
  }

  /** With a sound square root, a length is never negative and is zero exactly
      for the zero vector. */
  lemma LengthZeroIff(v: Vec, m: Math)
    requires m.Sound()
    ensures 0.0 <= Length(v, m)
    ensures Length(v, m) == 0.0 <==> v == Zero
  {
    SelfDotZero(v);
  }
}
