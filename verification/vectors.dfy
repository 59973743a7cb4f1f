/**
 * Two-dimensional vectors and the few numeric helpers of JavaScript's Math
 * object that the physics kernel uses. JavaScript numbers are modelled as
 * exact reals. The vector class itself (vector.js) is not part of this model:
 * its exact operations (add, subtract, scale, dot) are written out here, and
 * the operations that need a square root (magnitude, unit) are taken as a
 * parameter of type Norm.
 */
module Vectors {

  datatype Vec = Vec(x: real, y: real) {

    function Add(v: Vec): Vec {
      Vec(x + v.x, y + v.y)
    }

    function Sub(v: Vec): Vec {
      Vec(x - v.x, y - v.y)
    }

    function Scale(k: real): Vec {
      Vec(x * k, y * k)
    }

    function Dot(v: Vec): real {
      x * v.x + y * v.y
    }

    /** The square of the Euclidean length: what `magnitude` squares to. */
    function LengthSq(): real {
      x * x + y * y
    }
  }

  /** Vector.ZERO */
  const Zero: Vec := Vec(0.0, 0.0)

  /**
   * The square-root based operations of the vector class: `magnitude` and
   * `unit` (normalisation). They are parameters of every operation that uses
   * them, so that nothing is assumed about them unless a lemma says so.
   */
  datatype Norm = Norm(magnitude: Vec -> real, unit: Vec -> Vec)

  /** `norm` agrees with the Euclidean length at `v`. */
  predicate EuclideanAt(norm: Norm, v: Vec) {
    norm.magnitude(v) >= 0.0 && norm.magnitude(v) * norm.magnitude(v) == v.LengthSq()
  }

  /**
   * `u` is `v` reversed. Stated on the components rather than through a
   * negation function, which the solver would keep applying to a zero vector.
   */
  predicate Opposite(u: Vec, v: Vec) {
    u.x == -v.x && u.y == -v.y
  }

  /** Math.abs */
  function Abs(x: real): (r: real)
    ensures r >= 0.0 && (r == x || r == -x)
  {
    if x < 0.0 then -x else x
  }

  /** Math.sign: 1 for positive, -1 for negative and 0 for zero. */
  function Sign(x: real): real {
    if x > 0.0 then 1.0 else if x < 0.0 then -1.0 else 0.0
  }

  /** Math.min */
  function Min(a: real, b: real): (r: real)
    ensures r <= a && r <= b && (r == a || r == b)
  {
    if a <= b then a else b
  }

  /** Math.max */
  function Max(a: real, b: real): (r: real)
    ensures r >= a && r >= b && (r == a || r == b)
  {
    if a >= b then a else b
  }

  // The three helpers below hand a product back through an out-parameter
  // rather than as `c * d > 0.0`: the solver rewrites a comparison of a
  // product with zero into a statement about signs, which is of no use to a
  // caller that reasons about the product itself.

  /** The product of two positive numbers is positive. */
  lemma Product(c: real, d: real) returns (p: real)
    requires c > 0.0 && d > 0.0
    ensures p == c * d && p > 0.0
  {
    p := c * d;
  }

  /** A square is never negative, and is zero only at zero. */
  lemma Square(a: real) returns (s: real)
    ensures s == a * a
    ensures s >= 0.0
    ensures s == 0.0 <==> a == 0.0
  {
    s := a * a;
    if a > 0.0 {
      var p := Product(a, a);
    } else if a < 0.0 {
      var p := Product(-a, -a);
    }
  }

  /** Squaring is strictly increasing on the non-negative numbers. */
  lemma SquareLess(a: real, b: real) returns (sa: real, sb: real)
    requires 0.0 <= a < b
    ensures sa == a * a && sb == b * b && sa < sb
  {
    sa, sb := a * a, b * b;
    var p := Product(b - a, b + a);
  }

  /** The squared length is never negative, and is zero only for the zero vector. */
  lemma LengthSqSign(v: Vec)
    ensures v.LengthSq() >= 0.0
    ensures v.LengthSq() == 0.0 <==> v == Zero
  {
    var sx := Square(v.x);
    var sy := Square(v.y);
  }

  /** A value equal to a Euclidean magnitude squares to the squared length. */
  lemma EuclideanSquare(norm: Norm, v: Vec, p: real)
    requires EuclideanAt(norm, v) && p == norm.magnitude(v)
    ensures 0.0 <= p && p * p == v.LengthSq()
  {
  }

  /** With a Euclidean magnitude, "magnitude is zero" means "is the zero vector". */
  lemma MagnitudeZero(norm: Norm, v: Vec)
    requires EuclideanAt(norm, v)
    ensures norm.magnitude(v) == 0.0 <==> v == Zero
  {
    LengthSqSign(v);
    var s := Square(norm.magnitude(v));
  }

  /** With a Euclidean magnitude, "magnitude is positive" means "is not the zero vector". */
  lemma MagnitudePositive(norm: Norm, v: Vec)
    requires EuclideanAt(norm, v)
    ensures norm.magnitude(v) > 0.0 <==> v != Zero
  {
    MagnitudeZero(norm, v);
  }

  /** A length test `magnitude(v) <= r` in squared form, with no square root. */
  lemma MagnitudeAtMost(norm: Norm, v: Vec, r: real)
    requires EuclideanAt(norm, v)
    ensures norm.magnitude(v) <= r <==> 0.0 <= r && v.LengthSq() <= r * r
  {
    var m := norm.magnitude(v);
    if m < r {
      var _, _ := SquareLess(m, r);
    } else if m > r && r >= 0.0 {
      var _, _ := SquareLess(r, m);
    }
  }

  /** Two vectors of the same squared length have the same Euclidean magnitude. */
  lemma SameMagnitude(norm: Norm, u: Vec, v: Vec)
    requires EuclideanAt(norm, u) && EuclideanAt(norm, v)
    requires u.LengthSq() == v.LengthSq()
    ensures norm.magnitude(u) == norm.magnitude(v)
  {
    var mu, mv := norm.magnitude(u), norm.magnitude(v);
    if mu < mv {
      var _, _ := SquareLess(mu, mv);
    } else if mv < mu {
      var _, _ := SquareLess(mv, mu);
    }
  }

  /** A Euclidean magnitude is the non-negative root of the squared length. */
  lemma MagnitudeIs(norm: Norm, v: Vec, r: real)
    requires EuclideanAt(norm, v)
    requires 0.0 <= r && v.LengthSq() == r * r
    ensures norm.magnitude(v) == r
  {
    var m := norm.magnitude(v);
    if m < r {
      var _, _ := SquareLess(m, r);
    } else if r < m {
      var _, _ := SquareLess(r, m);
    }
  }

  /** Opposite vectors have the same squared length. */
  lemma OppositeLengthSq(u: Vec, v: Vec)
    requires Opposite(u, v)
    ensures u.LengthSq() == v.LengthSq()
  {
  }

  /**
   * For a magnitude Euclidean at both differences, the distance from a to b
   * is the distance from b to a, and it is zero exactly when a and b are equal.
   */
  lemma DistanceSymmetric(norm: Norm, a: Vec, b: Vec)
    requires EuclideanAt(norm, a.Sub(b)) && EuclideanAt(norm, b.Sub(a))
    ensures norm.magnitude(b.Sub(a)) == norm.magnitude(a.Sub(b))
    ensures norm.magnitude(a.Sub(b)) == 0.0 <==> a == b
  {
    OppositeLengthSq(b.Sub(a), a.Sub(b));
    SameMagnitude(norm, a.Sub(b), b.Sub(a));
    MagnitudeZero(norm, a.Sub(b));
    SubZero(a, b);
  }

  /** The difference of two vectors is zero exactly when they are equal. */
  lemma SubZero(a: Vec, b: Vec)
    ensures a.Sub(b) == Zero <==> a == b
  {
  }

  /** The quotient of two positive numbers is positive. */
  lemma Quotient(x: real, y: real) returns (q: real)
    requires x > 0.0 && y > 0.0
    ensures q == x / y && q > 0.0
  {
    q := x / y;
    assert q * y == x;
    if q < 0.0 {
      var p := Product(-q, y);
    }
  }

  /** Dividing by a non-zero number and multiplying back gives the number again. */
  lemma Cancel(x: real, k: real)
    requires k != 0.0
    ensures x / k * k == x
  {
  }

  /**
   * The share `c * a / (a + b)` of a non-negative amount `c`, for non-negative
   * weights `a` and `b` that do not both vanish, lies between 0 and `c`.
   */
  lemma ShareAtMost(c: real, a: real, b: real) returns (s: real)
    requires 0.0 <= c && 0.0 <= a && 0.0 <= b && a + b != 0.0
    ensures s == c * a / (a + b) && 0.0 <= s <= c
  {
    s := c * a / (a + b);
    assert s * (a + b) == c * a;
    var ca, cb := 0.0, 0.0;
    if c > 0.0 && a > 0.0 {
      ca := Product(c, a);
    }
    if c > 0.0 && b > 0.0 {
      cb := Product(c, b);
    }
    assert c * a == ca && c * b == cb;
    if s < 0.0 {
      var p := Product(-s, a + b);
    }
    if s > c {
      var p := Product(s - c, a + b);
    }
  }

  /** Reversing one side of a dot product negates it; reversing both keeps it. */
  lemma ReversedDot(u: Vec, v: Vec)
    ensures Vec(-u.x, -u.y).Dot(v) == -u.Dot(v)
    ensures u.Dot(Vec(-v.x, -v.y)) == -u.Dot(v)
    ensures Vec(-u.x, -u.y).Dot(Vec(-v.x, -v.y)) == u.Dot(v)
  {
  }

  /** Scaling one side of a dot product with itself scales the squared length. */
  lemma ScaleDot(n: Vec, g: real)
    ensures n.Scale(g).Dot(n) == g * n.LengthSq()
  {
  }

  /**
   * Adding `n` scaled by `j * k` to `u` lowers the component of `w - u`
   * along `n` by `j * k` times the squared length of `n`.
   */
  lemma KickAlong(w: Vec, u: Vec, n: Vec, j: real, k: real)
    ensures w.Sub(u.Add(n.Scale(j).Scale(k))).Dot(n) == w.Sub(u).Dot(n) - (j * k) * n.LengthSq()
  {
  }
}
