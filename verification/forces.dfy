/** The soft pair force between bubbles: `get_vdw_force_magnitude` and
    `get_vdw_forces`.

    Two bubbles with radii `r1`, `r2` whose centres are `d` apart pull on each
    other with magnitude `2 * (d - a) * d`, where `a = r1 + r2 + 1` is the
    separation at which the force vanishes. The force acts along the unit
    vector from one centre to the other, so it is an attraction beyond `a`
    and a repulsion inside it. Every unordered pair is visited once and adds
    equal and opposite vectors to its two bubbles. */
module Forces {
  import opened Vectors

  /** The separation `a = r1 + r2 + 1` at which the pair force vanishes:
      just over the sum of the two radii. */
  function Equilibrium(r1: real, r2: real): real {
    r1 + r2 + 1.0
  }

  /** The sign of a product with a non-negative factor. */
  lemma ProductSign(p: real, d: real)
    requires d >= 0.0
    ensures p * d > 0.0 <==> p > 0.0 && d > 0.0
    ensures p * d < 0.0 <==> p < 0.0 && d > 0.0
    ensures p * d == 0.0 <==> p == 0.0 || d == 0.0
  {
    if p > 0.0 && d > 0.0 {
      MulPos(p, d);
    } else if p < 0.0 && d > 0.0 {
      MulPos(-p, d);
      assert (-p) * d == -(p * d);
    }
  }

  /** `get_vdw_force_magnitude`: `2 * (dist - a) * dist` for the distance
      `dist` between the two centres. It is zero exactly at the equilibrium
      separation or for coincident centres, positive (an attraction) exactly
      beyond the equilibrium, and negative (a repulsion) exactly between
      distinct centres closer than the equilibrium. */
  function ForceMagnitude(sqrt: real -> real, r1: real, r2: real, c1: Vec2, c2: Vec2): (m: real)
    requires IsSqrt(sqrt)
    ensures m == 0.0 <==> Norm(sqrt, Sub(c2, c1)) == Equilibrium(r1, r2) || c1 == c2
    ensures m > 0.0 <==> Norm(sqrt, Sub(c2, c1)) > Equilibrium(r1, r2) && c1 != c2
    ensures m < 0.0 <==> Norm(sqrt, Sub(c2, c1)) < Equilibrium(r1, r2) && c1 != c2
  {
    var dist := Norm(sqrt, Sub(c2, c1));
    assert dist > 0.0 <==> c1 != c2 by {
      assert Sub(c2, c1) == Zero <==> c1 == c2;
    }
    SignedProduct(2.0 * (dist - Equilibrium(r1, r2)), dist)
  }

  /** `p * d` for a non-negative `d`, with its sign. */
  function SignedProduct(p: real, d: real): (r: real)
    requires d >= 0.0
    ensures r > 0.0 <==> p > 0.0 && d > 0.0
    ensures r < 0.0 <==> p < 0.0 && d > 0.0
    ensures r == 0.0 <==> p == 0.0 || d == 0.0
  {
    ProductSign(p, d);
    p * d
  }

  /** The magnitude does not depend on which bubble is named first. */
  lemma ForceMagnitudeSymmetric(sqrt: real -> real, r1: real, r2: real, c1: Vec2, c2: Vec2)
    requires IsSqrt(sqrt)
    ensures ForceMagnitude(sqrt, r2, r1, c2, c1) == ForceMagnitude(sqrt, r1, r2, c1, c2)
  {
    assert Sub(c1, c2) == Neg(Sub(c2, c1));
    NormNeg(sqrt, Sub(c2, c1));
  }

  /** Dividing a vector by its (positive) length gives a vector of length one
      that scales back to the original. */
  lemma Normalise(d: Vec2, n: real)
    requires n > 0.0 && n * n == SqNorm(d)
    ensures SqNorm(Vec2(d.x / n, d.y / n)) == 1.0
    ensures Scale(n, Vec2(d.x / n, d.y / n)) == d
  {
    var ux := d.x / n;
    var uy := d.y / n;
    var len := ux * ux + uy * uy;
    var sq := n * n;
    assert ux * n == d.x && uy * n == d.y;
    assert d.x * d.x == (ux * ux) * sq;
    assert d.y * d.y == (uy * uy) * sq;
    assert d.x * d.x + d.y * d.y == len * sq;
    assert sq == SqNorm(d) == d.x * d.x + d.y * d.y;
    if sq == 0.0 {
      SquareZero(n);
    }
    CancelPositive(len, sq);
  }

  /** The unit vector from `from` to `to`, `(to - from) / norm(to - from)`;
      defined for distinct points only. */
  function Unit(sqrt: real -> real, from: Vec2, to: Vec2): (u: Vec2)
    requires IsSqrt(sqrt)
    requires from != to
    ensures SqNorm(u) == 1.0
    ensures Scale(Norm(sqrt, Sub(to, from)), u) == Sub(to, from)
  {
    var d := Sub(to, from);
    var n := Norm(sqrt, d);
    assert d != Zero;
    Normalise(d, n);
    Vec2(d.x / n, d.y / n)
  }

  /** The unit vector back is the opposite of the unit vector there. */
  lemma UnitAntisymmetric(sqrt: real -> real, p: Vec2, q: Vec2)
    requires IsSqrt(sqrt)
    requires p != q
    ensures Unit(sqrt, q, p) == Neg(Unit(sqrt, p, q))
  {
    assert Sub(p, q) == Neg(Sub(q, p));
    NormNeg(sqrt, Sub(q, p));
  }

  /** The force on bubble 1 from bubble 2: the unit vector from 1 to 2 times
      the magnitude (`dist_vec * force_mag`). */
  function PairForce(sqrt: real -> real, r1: real, r2: real, c1: Vec2, c2: Vec2): (f: Vec2)
    requires IsSqrt(sqrt)
    requires c1 != c2
  {
    Scale(ForceMagnitude(sqrt, r1, r2, c1, c2), Unit(sqrt, c1, c2))
  }

  /** The dot product. */
  function Dot(u: Vec2, v: Vec2): real {
    u.x * v.x + u.y * v.y
  }

  /** The pair force is as long as its magnitude says, and its component
      along the line towards the partner is the magnitude times the distance:
      a positive magnitude pulls bubble 1 towards bubble 2, a negative one
      pushes it away. */
  lemma PairForceDirection(sqrt: real -> real, r1: real, r2: real, c1: Vec2, c2: Vec2)
    requires IsSqrt(sqrt)
    requires c1 != c2
    ensures var m := ForceMagnitude(sqrt, r1, r2, c1, c2);
            var f := PairForce(sqrt, r1, r2, c1, c2);
            && SqNorm(f) == m * m
            && Dot(f, Sub(c2, c1)) == m * Norm(sqrt, Sub(c2, c1))
            && (Dot(f, Sub(c2, c1)) > 0.0 <==> m > 0.0)
            && (Dot(f, Sub(c2, c1)) < 0.0 <==> m < 0.0)
  {
    var m := ForceMagnitude(sqrt, r1, r2, c1, c2);
    var u := Unit(sqrt, c1, c2);
    var d := Sub(c2, c1);
    var n := Norm(sqrt, d);
    assert d != Zero;
    assert n > 0.0;
    assert PairForce(sqrt, r1, r2, c1, c2) == Scale(m, u);
    ScaledUnit(m, u, n, d);
  }

  /** For a unit vector `u` with `n * u == d` and `n` positive: `m * u` has
      squared length `m^2`, and its dot product with `d` is `m * n`, of the
      sign of `m`. */
  lemma ScaledUnit(m: real, u: Vec2, n: real, d: Vec2)
    requires SqNorm(u) == 1.0 && Scale(n, u) == d && n > 0.0
    ensures SqNorm(Scale(m, u)) == m * m
    ensures Dot(Scale(m, u), d) == m * n
    ensures Dot(Scale(m, u), d) > 0.0 <==> m > 0.0
    ensures Dot(Scale(m, u), d) < 0.0 <==> m < 0.0
  {
    assert SqNorm(Scale(m, u)) == (m * m) * SqNorm(u);
    assert Dot(Scale(m, u), d) == (m * n) * SqNorm(u);
    ProductSign(m, n);
  }

  /** Newton's third law for one pair: the force on 2 from 1 is the opposite
      of the force on 1 from 2. */
  lemma PairForceAntisymmetric(sqrt: real -> real, r1: real, r2: real, c1: Vec2, c2: Vec2)
    requires IsSqrt(sqrt)
    requires c1 != c2
    ensures PairForce(sqrt, r2, r1, c2, c1) == Neg(PairForce(sqrt, r1, r2, c1, c2))
  {
    ForceMagnitudeSymmetric(sqrt, r1, r2, c1, c2);
    UnitAntisymmetric(sqrt, c1, c2);
  }

  // ---------------------------------------------------------------------------
  // Summing over pairs.

  /** No two bubbles share a centre, so every unit vector between two of them
      is defined. */
  predicate Distinct(centres: seq<Vec2>) {
    forall i, j :: 0 <= i < |centres| && 0 <= j < |centres| && i != j ==> centres[i] != centres[j]
  }

  /** One centre per radius, no two equal: the configurations on which
      `get_vdw_forces` is defined. */
  predicate Admissible(radii: seq<real>, centres: seq<Vec2>) {
    |centres| == |radii| && Distinct(centres)
  }

  /** The force on bubble `k` from bubble `j`. */
  function Pair(sqrt: real -> real, radii: seq<real>, centres: seq<Vec2>, k: nat, j: nat): Vec2
    requires IsSqrt(sqrt) && Admissible(radii, centres)
    requires k < |radii| && j < |radii| && k != j
  {
    PairForce(sqrt, radii[k], radii[j], centres[k], centres[j])
  }

  lemma PairAntisymmetric(sqrt: real -> real, radii: seq<real>, centres: seq<Vec2>, k: nat, j: nat)
    requires IsSqrt(sqrt) && Admissible(radii, centres)
    requires k < |radii| && j < |radii| && k != j
    ensures Pair(sqrt, radii, centres, j, k) == Neg(Pair(sqrt, radii, centres, k, j))
  {
    PairForceAntisymmetric(sqrt, radii[k], radii[j], centres[k], centres[j]);
  }

  /** The body of the inner loop for the pair `(i, j)`: `forces[i] += u * m`
      and `forces[j] += -1 * u * m`. The second update is the force on `j`
      from `i`, and the two updates cancel in the total. */
  function AddPair(sqrt: real -> real, radii: seq<real>, centres: seq<Vec2>, forces: seq<Vec2>, i: nat, j: nat): (r: seq<Vec2>)
    requires IsSqrt(sqrt) && Admissible(radii, centres)
    requires |forces| == |radii| && i < j < |radii|
    ensures |r| == |forces|
    ensures Sum(r) == Sum(forces)
    ensures r[i] == Add(forces[i], Pair(sqrt, radii, centres, i, j))
    ensures r[j] == Add(forces[j], Pair(sqrt, radii, centres, j, i))
    ensures forall k :: 0 <= k < |r| && k != i && k != j ==> r[k] == forces[k]
  {
    var p := Pair(sqrt, radii, centres, i, j);
    var once := forces[i := Add(forces[i], p)];
    SumUpdate(forces, i, Add(forces[i], p));
    SumUpdate(once, j, Add(forces[j], Neg(p)));
    PairAntisymmetric(sqrt, radii, centres, i, j);
    once[j := Add(forces[j], Neg(p))]
  }

  /** `for j in range(i+1, N)`, from the given `j` on. */
  function InnerLoop(sqrt: real -> real, radii: seq<real>, centres: seq<Vec2>, forces: seq<Vec2>, i: nat, j: nat): (r: seq<Vec2>)
    requires IsSqrt(sqrt) && Admissible(radii, centres)
    requires |forces| == |radii| && i < j <= |radii|
    ensures |r| == |forces|
    ensures Sum(r) == Sum(forces)
    decreases |radii| - j
  {
    if j == |radii| then forces
    else InnerLoop(sqrt, radii, centres, AddPair(sqrt, radii, centres, forces, i, j), i, j + 1)
  }

  /** `for i in range(N-1)`, from the given `i` on. */
  function OuterLoop(sqrt: real -> real, radii: seq<real>, centres: seq<Vec2>, forces: seq<Vec2>, i: nat): (r: seq<Vec2>)
    requires IsSqrt(sqrt) && Admissible(radii, centres)
    requires |forces| == |radii| && i <= |radii|
    ensures |r| == |forces|
    ensures Sum(r) == Sum(forces)
    decreases |radii| - i
  {
    if i + 1 >= |radii| then forces
    else OuterLoop(sqrt, radii, centres, InnerLoop(sqrt, radii, centres, forces, i, i + 1), i + 1)
  }

  /** `get_vdw_forces`: one force per bubble, accumulated pair by pair onto
      an array of zeros. */
  function VdwForces(sqrt: real -> real, radii: seq<real>, centres: seq<Vec2>): (forces: seq<Vec2>)
    requires IsSqrt(sqrt) && Admissible(radii, centres)
    ensures |forces| == |radii|
  {
    OuterLoop(sqrt, radii, centres, Zeros(|radii|), 0)
  }

  /** The forces sum to zero: every pair contributes equal and opposite
      forces, so the total momentum change of a step is nil. */
  lemma VdwForcesBalanced(sqrt: real -> real, radii: seq<real>, centres: seq<Vec2>)
    requires IsSqrt(sqrt) && Admissible(radii, centres)
    ensures Sum(VdwForces(sqrt, radii, centres)) == Zero
  {
    SumZeros(|radii|);
  }

  /** With at most one bubble there is no pair, and every force is zero. */
  lemma LoneBubbleFeelsNoForce(sqrt: real -> real, radii: seq<real>, centres: seq<Vec2>)
    requires IsSqrt(sqrt) && Admissible(radii, centres) && |radii| <= 1
    ensures forall k :: 0 <= k < |radii| ==> VdwForces(sqrt, radii, centres)[k] == Zero
  {
  }

  // ---------------------------------------------------------------------------
  // The reference definition: the net force on a bubble.

  /** The sum of the forces on bubble `k` from the bubbles `0 .. hi-1` other
      than itself. */
  function RowSum(sqrt: real -> real, radii: seq<real>, centres: seq<Vec2>, k: nat, hi: nat): Vec2
    requires IsSqrt(sqrt) && Admissible(radii, centres)
    requires k < |radii| && hi <= |radii|
  {
    if hi == 0 then Zero
    else
      var rest := RowSum(sqrt, radii, centres, k, hi - 1);
      if hi - 1 == k then rest else Add(rest, Pair(sqrt, radii, centres, k, hi - 1))
  }

  /** The net force on bubble `k`: the sum over every other bubble `j` of the
      force on `k` from `j`. */
  function NetForce(sqrt: real -> real, radii: seq<real>, centres: seq<Vec2>, k: nat): Vec2
    requires IsSqrt(sqrt) && Admissible(radii, centres)
    requires k < |radii|
  {
    RowSum(sqrt, radii, centres, k, |radii|)
  }

  /** What `forces[k]` holds once the pairs before `(i, j)` are done: the
      pairs `(a, b)` with `a < i`, and `(i, b)` with `b < j`. */
  function Expected(sqrt: real -> real, radii: seq<real>, centres: seq<Vec2>, k: nat, i: nat, j: nat): Vec2
    requires IsSqrt(sqrt) && Admissible(radii, centres)
    requires k < |radii| && i < j <= |radii|
  {
    if k < i then RowSum(sqrt, radii, centres, k, |radii|)
    else if k == i then RowSum(sqrt, radii, centres, k, j)
    else if k < j then RowSum(sqrt, radii, centres, k, i + 1)
    else RowSum(sqrt, radii, centres, k, i)
  }

  ghost predicate Progress(sqrt: real -> real, radii: seq<real>, centres: seq<Vec2>, forces: seq<Vec2>, i: nat, j: nat)
    requires IsSqrt(sqrt) && Admissible(radii, centres)
    requires i < j <= |radii|
  {
    && |forces| == |radii|
    && forall k :: 0 <= k < |forces| ==> forces[k] == Expected(sqrt, radii, centres, k, i, j)
  }

  /** One pass of the inner body moves the progress on by one pair. */
  lemma AddPairProgress(sqrt: real -> real, radii: seq<real>, centres: seq<Vec2>, forces: seq<Vec2>, i: nat, j: nat)
    requires IsSqrt(sqrt) && Admissible(radii, centres)
    requires i < j < |radii|
    requires Progress(sqrt, radii, centres, forces, i, j)
    ensures Progress(sqrt, radii, centres, AddPair(sqrt, radii, centres, forces, i, j), i, j + 1)
  {
    var r := AddPair(sqrt, radii, centres, forces, i, j);
    forall k | 0 <= k < |r|
      ensures r[k] == Expected(sqrt, radii, centres, k, i, j + 1)
    {
      if k == i || k == j {
      } else {
        assert Expected(sqrt, radii, centres, k, i, j + 1) == Expected(sqrt, radii, centres, k, i, j);
      }
    }
  }

  lemma {:induction false} InnerLoopProgress(sqrt: real -> real, radii: seq<real>, centres: seq<Vec2>, forces: seq<Vec2>, i: nat, j: nat)
    requires IsSqrt(sqrt) && Admissible(radii, centres)
    requires i < j <= |radii|
    requires Progress(sqrt, radii, centres, forces, i, j)
    ensures Progress(sqrt, radii, centres, InnerLoop(sqrt, radii, centres, forces, i, j), i, |radii|)
    decreases |radii| - j
  {
    if j < |radii| {
      AddPairProgress(sqrt, radii, centres, forces, i, j);
      InnerLoopProgress(sqrt, radii, centres, AddPair(sqrt, radii, centres, forces, i, j), i, j + 1);
    }
  }

  /** Finishing row `i` is starting row `i + 1`. */
  lemma NextRow(sqrt: real -> real, radii: seq<real>, centres: seq<Vec2>, forces: seq<Vec2>, i: nat)
    requires IsSqrt(sqrt) && Admissible(radii, centres)
    requires i + 1 < |radii|
    requires Progress(sqrt, radii, centres, forces, i, |radii|)
    ensures Progress(sqrt, radii, centres, forces, i + 1, i + 2)
  {
    forall k | 0 <= k < |forces|
      ensures forces[k] == Expected(sqrt, radii, centres, k, i + 1, i + 2)
    {
      if k == i + 1 {
        assert RowSum(sqrt, radii, centres, k, k + 1) == RowSum(sqrt, radii, centres, k, k);
      }
    }
  }

  lemma {:induction false} OuterLoopNet(sqrt: real -> real, radii: seq<real>, centres: seq<Vec2>, forces: seq<Vec2>, i: nat)
    requires IsSqrt(sqrt) && Admissible(radii, centres)
    requires i < |radii|
    requires Progress(sqrt, radii, centres, forces, i, i + 1)
    ensures var r := OuterLoop(sqrt, radii, centres, forces, i);
            forall k :: 0 <= k < |r| ==> r[k] == NetForce(sqrt, radii, centres, k)
    decreases |radii| - i
  {
    if i + 1 < |radii| {
      InnerLoopProgress(sqrt, radii, centres, forces, i, i + 1);
      var g := InnerLoop(sqrt, radii, centres, forces, i, i + 1);
      NextRow(sqrt, radii, centres, g, i);
      OuterLoopNet(sqrt, radii, centres, g, i + 1);
    }
  }

  /** `get_vdw_forces` agrees with the reference: the force it returns for
      each bubble is the sum of the pair forces on it from all the others. */
  lemma VdwForcesAreNetForces(sqrt: real -> real, radii: seq<real>, centres: seq<Vec2>)
    requires IsSqrt(sqrt) && Admissible(radii, centres)
    ensures var forces := VdwForces(sqrt, radii, centres);
            forall k :: 0 <= k < |forces| ==> forces[k] == NetForce(sqrt, radii, centres, k)
  {
    if |radii| > 0 {
      var zs := Zeros(|radii|);
      forall k | 0 <= k < |zs|
        ensures zs[k] == Expected(sqrt, radii, centres, k, 0, 1)
      {
        if k == 0 {
          assert RowSum(sqrt, radii, centres, 0, 1) == RowSum(sqrt, radii, centres, 0, 0);
        }
      }
      OuterLoopNet(sqrt, radii, centres, zs, 0);
    }
  }

  // ---------------------------------------------------------------------------
  // Bubbles on one line.

  /** Two bubbles that share their coordinate along an axis pull or push each
      other along the line through them only: the pair force has no
      component along that axis. */
  lemma PairForceAlongLine(sqrt: real -> real, r1: real, r2: real, c1: Vec2, c2: Vec2, a: Axis)
    requires IsSqrt(sqrt)
    requires c1 != c2 && Component(c1, a) == Component(c2, a)
    ensures Component(PairForce(sqrt, r1, r2, c1, c2), a) == 0.0
  {
  }

  lemma {:induction false} RowSumAlongLine(sqrt: real -> real, radii: seq<real>, centres: seq<Vec2>, k: nat, hi: nat, a: Axis)
    requires IsSqrt(sqrt) && Admissible(radii, centres) && OnLine(centres, a)
    requires k < |radii| && hi <= |radii|
    ensures Component(RowSum(sqrt, radii, centres, k, hi), a) == 0.0
  {
    if hi > 0 {
      RowSumAlongLine(sqrt, radii, centres, k, hi - 1, a);
      if hi - 1 != k {
        PairForceAlongLine(sqrt, radii[k], radii[hi - 1], centres[k], centres[hi - 1], a);
      }
    }
  }

  /** Bubbles whose centres all lie on one line feel no force across it: the
      forces' column along the shared axis is all zero. */
  lemma ForcesAlongLine(sqrt: real -> real, radii: seq<real>, centres: seq<Vec2>, a: Axis)
    requires IsSqrt(sqrt) && Admissible(radii, centres) && OnLine(centres, a)
    ensures ZeroColumn(VdwForces(sqrt, radii, centres), a)
  {
    VdwForcesAreNetForces(sqrt, radii, centres);
    forall k | 0 <= k < |radii|
      ensures Component(VdwForces(sqrt, radii, centres)[k], a) == 0.0
    {
      RowSumAlongLine(sqrt, radii, centres, k, |radii|, a);
    }
  }
}
