/** Two-dimensional real vectors, sequences of them, and the square root that
    the layout engine takes Euclidean norms with.

    The engine stores every per-bubble quantity (centre, velocity, force) as one
    row of an (N, 2) array; here such an array is a `seq<Vec2>` whose entry `i`
    belongs to bubble `i`. Arithmetic is exact over `real`: floating-point
    rounding is not modelled.

    The module also holds the facts about products, squares and square roots
    that the rest of the model uses, each as a small lemma over plain reals. */
module Vectors {

  datatype Vec2 = Vec2(x: real, y: real)

  /** The origin, the zero vector. */
  const Zero: Vec2 := Vec2(0.0, 0.0)

  function Add(u: Vec2, v: Vec2): Vec2 {
    Vec2(u.x + v.x, u.y + v.y)
  }

  function Sub(u: Vec2, v: Vec2): Vec2 {
    Vec2(u.x - v.x, u.y - v.y)
  }

  function Neg(v: Vec2): Vec2 {
    Vec2(-v.x, -v.y)
  }

  /** `c * v`, numpy's broadcast of a scalar over a row. */
  function Scale(c: real, v: Vec2): Vec2 {
    Vec2(c * v.x, c * v.y)
  }

  /** The square of a number. */
  function Sq(x: real): real {
    x * x
  }

  /** The two axes of the plane; a velocity "column" is one axis of every
      row. */
  datatype Axis = X | Y

  /** The coordinate of `v` along axis `a`. */
  function Component(v: Vec2, a: Axis): real {
    match a
    case X => v.x
    case Y => v.y
  }

  /** All points share their coordinate along axis `a`: they lie on one line
      parallel to the other axis. */
  predicate OnLine(ps: seq<Vec2>, a: Axis) {
    forall i, j :: 0 <= i < |ps| && 0 <= j < |ps| ==> Component(ps[i], a) == Component(ps[j], a)
  }

  /** Every row is zero along axis `a`: that column of the array is all
      zero. */
  predicate ZeroColumn(vs: seq<Vec2>, a: Axis) {
    forall i :: 0 <= i < |vs| ==> Component(vs[i], a) == 0.0
  }

  /** The squared Euclidean length `x^2 + y^2`. */
  function SqNorm(v: Vec2): real {
    v.x * v.x + v.y * v.y
  }

  /** The squared distance between two points. */
  function SqDist(p: Vec2, q: Vec2): real {
    SqNorm(Sub(q, p))
  }

  // ---------------------------------------------------------------------------
  // Facts about products of reals.

  lemma MulPos(a: real, b: real)
    requires a > 0.0 && b > 0.0
    ensures a * b > 0.0
  {
  }

  lemma MulLtRight(a: real, b: real, c: real)
    requires a < b && c > 0.0
    ensures a * c < b * c
  {
  }

  lemma MulLeRight(a: real, b: real, c: real)
    requires a <= b && c >= 0.0
    ensures a * c <= b * c
  {
  }

  lemma MulZero(a: real, b: real)
    requires a * b == 0.0
    ensures a == 0.0 || b == 0.0
  {
  }

  /** Only zero squares to zero. */
  lemma SquareZero(h: real)
    requires h * h == 0.0
    ensures h == 0.0
  {
    MulZero(h, h);
  }

  /** Squaring is strictly increasing on the non-negative reals. */
  lemma SquareLt(a: real, b: real)
    requires 0.0 <= a < b
    ensures a * a < b * b
  {
    MulPos(b - a, b + a);
    assert (b - a) * (b + a) == b * b - a * a;
  }

  /** A number at least the square of a non-zero number is positive. */
  lemma AboveSquarePositive(t: real, p: real)
    requires t >= p * p && p != 0.0
    ensures t > 0.0
  {
    if t <= 0.0 {
      SquareZero(p);
    }
  }

  /** Squaring is monotone on the non-negative reals. */
  lemma SquareLe(a: real, b: real)
    requires 0.0 <= a <= b
    ensures a * a <= b * b
  {
    if a < b {
      SquareLt(a, b);
    }
  }

  /** Non-negative reals with equal squares are equal. */
  lemma SquareInjective(a: real, b: real)
    requires 0.0 <= a && 0.0 <= b && a * a == b * b
    ensures a == b
  {
    if a < b {
      SquareLt(a, b);
    } else if b < a {
      SquareLt(b, a);
    }
  }

  /** `x * m == m` with `m` positive forces `x == 1`. */
  lemma CancelPositive(x: real, m: real)
    requires m > 0.0 && x * m == m
    ensures x == 1.0
  {
    if x > 1.0 {
      MulLtRight(1.0, x, m);
    } else if x < 1.0 {
      MulLtRight(x, 1.0, m);
    }
  }

  // ---------------------------------------------------------------------------
  // The square root.

  /** `sqrt` behaves as the non-negative square root on non-negative reals.
      Every member that takes a norm is parameterised by such a function,
      which stands for the square root inside `np.linalg.norm`. */
  ghost predicate IsSqrt(sqrt: real -> real) {
    forall t: real {:trigger sqrt(t)} :: t >= 0.0 ==> sqrt(t) >= 0.0 && sqrt(t) * sqrt(t) == t
  }

  /** The root is the non-negative square root, positive exactly for positive
      arguments. */
  lemma SqrtFacts(sqrt: real -> real, t: real)
    requires IsSqrt(sqrt)
    requires t >= 0.0
    ensures sqrt(t) >= 0.0 && sqrt(t) * sqrt(t) == t
    ensures sqrt(t) > 0.0 <==> t > 0.0
  {
    var q := sqrt(t);
    assert q >= 0.0 && q * q == t;
    if t == 0.0 {
      SquareZero(q);
    }
  }

  lemma SqNormNonNeg(v: Vec2)
    ensures SqNorm(v) >= 0.0
  {
  }

  /** The squared length is positive exactly off the origin. */
  lemma SqNormPositive(v: Vec2)
    ensures SqNorm(v) >= 0.0
    ensures SqNorm(v) > 0.0 <==> v != Zero
  {
    SqNormNonNeg(v);
    if SqNorm(v) == 0.0 {
      SquareZero(v.x);
      SquareZero(v.y);
    }
  }

  /** `np.linalg.norm` of one row: the Euclidean length. */
  function Norm(sqrt: real -> real, v: Vec2): (n: real)
    requires IsSqrt(sqrt)
    ensures n >= 0.0
    ensures n * n == SqNorm(v)
    ensures n > 0.0 <==> v != Zero
  {
    SqNormPositive(v);
    SqrtFacts(sqrt, SqNorm(v));
    sqrt(SqNorm(v))
  }

  /** A vector whose squared length is at least `t^2` is at least `t` long. */
  lemma NormAtLeast(sqrt: real -> real, v: Vec2, t: real)
    requires IsSqrt(sqrt)
    requires t >= 0.0 && SqNorm(v) >= Sq(t)
    ensures Norm(sqrt, v) >= t
  {
    var n := Norm(sqrt, v);
    if n < t {
      SquareLt(n, t);
    }
  }

  /** A vector and its opposite have the same length. */
  lemma NormNeg(sqrt: real -> real, v: Vec2)
    requires IsSqrt(sqrt)
    ensures Norm(sqrt, Neg(v)) == Norm(sqrt, v)
  {
    assert SqNorm(Neg(v)) == SqNorm(v);
  }

  /** Scaling distributes over addition. */
  lemma ScaleAdd(c: real, u: Vec2, v: Vec2)
    ensures Scale(c, Add(u, v)) == Add(Scale(c, u), Scale(c, v))
  {
  }

  // ---------------------------------------------------------------------------
  // Sequences of rows.

  /** A sequence of `n` zero rows: `np.zeros((n, 2))`. */
  function Zeros(n: nat): (zs: seq<Vec2>)
    ensures |zs| == n
    ensures forall i :: 0 <= i < n ==> zs[i] == Zero
  {
    seq(n, _ => Zero)
  }

  /** The vector sum of all rows. */
  function Sum(vs: seq<Vec2>): Vec2 {
    if |vs| == 0 then Zero else Add(vs[0], Sum(vs[1..]))
  }

  /** Replacing one row changes the sum by exactly the change of that row. */
  lemma {:induction false} SumUpdate(vs: seq<Vec2>, i: nat, v: Vec2)
    requires i < |vs|
    ensures Sum(vs[i := v]) == Add(Sub(Sum(vs), vs[i]), v)
    decreases |vs|
  {
    if i == 0 {
      assert vs[i := v][1..] == vs[1..];
    } else {
      SumUpdate(vs[1..], i - 1, v);
      assert vs[i := v][1..] == vs[1..][i - 1 := v];
    }
  }

  lemma {:induction false} SumZeros(n: nat)
    ensures Sum(Zeros(n)) == Zero
  {
    if n > 0 {
      assert Zeros(n)[1..] == Zeros(n - 1);
      SumZeros(n - 1);
    }
  }

  /** The squared 2-norm of the x column: `sum_i vs[i].x^2`. */
  function SumSqX(vs: seq<Vec2>): real {
    if |vs| == 0 then 0.0 else Sq(vs[0].x) + SumSqX(vs[1..])
  }

  /** The squared 2-norm of the y column: `sum_i vs[i].y^2`. */
  function SumSqY(vs: seq<Vec2>): real {
    if |vs| == 0 then 0.0 else Sq(vs[0].y) + SumSqY(vs[1..])
  }

  lemma {:induction false} SumSqXNonNeg(vs: seq<Vec2>)
    ensures SumSqX(vs) >= 0.0
  {
    if |vs| > 0 {
      SumSqXNonNeg(vs[1..]);
    }
  }

  lemma {:induction false} SumSqXZero(vs: seq<Vec2>)
    requires SumSqX(vs) == 0.0
    ensures forall i :: 0 <= i < |vs| ==> vs[i].x == 0.0
  {
    if |vs| > 0 {
      SumSqXNonNeg(vs[1..]);
      SquareZero(vs[0].x);
      SumSqXZero(vs[1..]);
      assert forall i :: 1 <= i < |vs| ==> vs[i] == vs[1..][i - 1];
    }
  }

  lemma {:induction false} SumSqXAllZero(vs: seq<Vec2>)
    requires forall i :: 0 <= i < |vs| ==> vs[i].x == 0.0
    ensures SumSqX(vs) == 0.0
  {
    if |vs| > 0 {
      SumSqXAllZero(vs[1..]);
    }
  }

  /** The x column's squared norm is positive exactly when some entry of the
      column is non-zero. */
  lemma SumSqXPositive(vs: seq<Vec2>)
    ensures SumSqX(vs) >= 0.0
    ensures SumSqX(vs) > 0.0 <==> exists i :: 0 <= i < |vs| && vs[i].x != 0.0
  {
    SumSqXNonNeg(vs);
    if SumSqX(vs) == 0.0 {
      SumSqXZero(vs);
    } else if forall i :: 0 <= i < |vs| ==> vs[i].x == 0.0 {
      SumSqXAllZero(vs);
    }
  }

  lemma {:induction false} SumSqYNonNeg(vs: seq<Vec2>)
    ensures SumSqY(vs) >= 0.0
  {
    if |vs| > 0 {
      SumSqYNonNeg(vs[1..]);
    }
  }

  lemma {:induction false} SumSqYZero(vs: seq<Vec2>)
    requires SumSqY(vs) == 0.0
    ensures forall i :: 0 <= i < |vs| ==> vs[i].y == 0.0
  {
    if |vs| > 0 {
      SumSqYNonNeg(vs[1..]);
      SquareZero(vs[0].y);
      SumSqYZero(vs[1..]);
      assert forall i :: 1 <= i < |vs| ==> vs[i] == vs[1..][i - 1];
    }
  }

  lemma {:induction false} SumSqYAllZero(vs: seq<Vec2>)
    requires forall i :: 0 <= i < |vs| ==> vs[i].y == 0.0
    ensures SumSqY(vs) == 0.0
  {
    if |vs| > 0 {
      SumSqYAllZero(vs[1..]);
    }
  }

  /** The y column's squared norm is positive exactly when some entry of the
      column is non-zero. */
  lemma SumSqYPositive(vs: seq<Vec2>)
    ensures SumSqY(vs) >= 0.0
    ensures SumSqY(vs) > 0.0 <==> exists i :: 0 <= i < |vs| && vs[i].y != 0.0
  {
    SumSqYNonNeg(vs);
    if SumSqY(vs) == 0.0 {
      SumSqYZero(vs);
    } else if forall i :: 0 <= i < |vs| ==> vs[i].y == 0.0 {
      SumSqYAllZero(vs);
    }
  }

}
