/** Two-dimensional vectors of the 2D game: value objects whose operations
    all build a new vector. Lengths need a square root, so a normalisation is
    given the length of its vector rather than computing it. */
module Vector2D {

  datatype Vec = Vec(x: real, y: real)

  const Zero := Vec(0.0, 0.0)

  function Add(a: Vec, b: Vec): Vec
  {
    Vec(a.x + b.x, a.y + b.y)
  }

  function Sub(a: Vec, b: Vec): Vec
  {
    Vec(a.x - b.x, a.y - b.y)
  }

  /** Multiplication by a scalar. */
  function Scale(v: Vec, s: real): Vec
  {
    Vec(v.x * s, v.y * s)
  }

  /** Multiplication by a vector: componentwise. */
  function MulVec(a: Vec, b: Vec): Vec
  {
    Vec(a.x * b.x, a.y * b.y)
  }

  /** Division by a scalar; dividing by zero raises in the game. */
  function Div(v: Vec, s: real): Vec
    requires s != 0.0
  {
    Vec(v.x / s, v.y / s)
  }

  function Neg(v: Vec): Vec
  {
    Vec(-v.x, -v.y)
  }

  function Dot(a: Vec, b: Vec): real
  {
    a.x * b.x + a.y * b.y
  }

  /** The point a fraction t of the way from a to b. */
  function Lerp(a: Vec, b: Vec, t: real): Vec
  {
    Vec(a.x + (b.x - a.x) * t, a.y + (b.y - a.y) * t)
  }

  /** The mirror image of v in the line with normal n: v - 2(v.n)n. */
  function Reflect(v: Vec, n: Vec): Vec
  {
    var d := Dot(v, n);
    Vec(v.x - 2.0 * d * n.x, v.y - 2.0 * d * n.y)
  }

  /** The unit vector along v, given the length of v; the zero vector stays
      zero. */
  function Normalize(v: Vec, length: real): Vec
    requires length >= 0.0 && length * length == Dot(v, v)
  {
    if length == 0.0 then Vec(0.0, 0.0) else Div(v, length)
  }

  /** Subtracting what was added gives back the original vector, and addition
      does not depend on the order of its operands. */
  lemma AddSubInverse(a: Vec, b: Vec)
    ensures Sub(Add(a, b), b) == a
    ensures Add(Sub(a, b), b) == a
    ensures Add(a, b) == Add(b, a)
  {
  }

  /** A vector plus its negation is zero, and negating twice is the identity. */
  lemma NegInverse(v: Vec)
    ensures Add(v, Neg(v)) == Zero
    ensures Neg(Neg(v)) == v
    ensures Sub(Zero, v) == Neg(v)
  {
  }

  /** Interpolation starts at a, ends at b, and moves along b - a. */
  lemma LerpEnds(a: Vec, b: Vec, t: real)
    ensures Lerp(a, b, 0.0) == a
    ensures Lerp(a, b, 1.0) == b
    ensures Lerp(a, b, t) == Add(a, Scale(Sub(b, a), t))
  {
  }

  /** Scaling is multiplying by the vector with both coordinates equal to the
      scalar; division by a non-zero scalar undoes scaling by it. */
  lemma ScaleDiv(v: Vec, s: real)
    ensures Scale(v, s) == MulVec(v, Vec(s, s))
    ensures s != 0.0 ==> Div(Scale(v, s), s) == v && Scale(Div(v, s), s) == v
  {
    if s != 0.0 {
      assert v.x * s / s == v.x && v.y * s / s == v.y;
      assert v.x / s * s == v.x && v.y / s * s == v.y;
    }
  }

  /** Reflecting in a unit normal flips the component along the normal, and
      reflecting twice gives back the original vector. */
  lemma ReflectUnit(v: Vec, n: Vec)
    requires Dot(n, n) == 1.0
    ensures Dot(Reflect(v, n), n) == -Dot(v, n)
    ensures Reflect(Reflect(v, n), n) == v
  {
    var d := Dot(v, n);
    var r := Reflect(v, n);
    calc {
      Dot(r, n);
      (v.x - 2.0 * d * n.x) * n.x + (v.y - 2.0 * d * n.y) * n.y;
      d - 2.0 * d * (n.x * n.x + n.y * n.y);
      -d;
    }
    assert Reflect(r, n) == Vec(r.x + 2.0 * d * n.x, r.y + 2.0 * d * n.y);
  }

  /** Reflection leaves the part of v orthogonal to the normal alone. */
  lemma ReflectKeepsTangent(v: Vec, n: Vec, t: Vec)
    requires Dot(t, n) == 0.0
    ensures Dot(Reflect(v, n), t) == Dot(v, t)
  {
    var d := Dot(v, n);
    calc {
      Dot(Reflect(v, n), t);
      (v.x - 2.0 * d * n.x) * t.x + (v.y - 2.0 * d * n.y) * t.y;
      Dot(v, t) - 2.0 * d * (n.x * t.x + n.y * t.y);
      { assert n.x * t.x + n.y * t.y == Dot(t, n); }
      Dot(v, t);
    }
  }

  /** Normalising the zero vector gives zero; a vector of non-zero length
      is divided by it, so scaling the result by that length gives the vector
      back: the result points the same way with length one. */
  lemma NormalizeSpec(v: Vec, length: real)
    requires length >= 0.0 && length * length == Dot(v, v)
    ensures v == Zero ==> Normalize(v, length) == Zero
    ensures length != 0.0 ==> Scale(Normalize(v, length), length) == v
  {
    if length != 0.0 {
      ScaleDiv(v, length);
    } else if v == Zero {
      assert length * length == 0.0;
    }
  }
}
