/** The integrator of the relaxation loop: `update_positions` and
    `update_velocities`.

    Positions advance by the velocity-Verlet position rule. Velocities take
    the average of the old and new forces as a kick and are then rescaled
    column by column: every axis of the whole velocity array is divided by
    that axis's Euclidean norm over all bubbles, so each non-zero column
    comes out with unit length.

    The source divides unconditionally, and a column whose entries are all
    zero turns into NaN (0/0). `UpdateVelocitiesAsWritten` models that code
    with the division's requirement as a precondition; `UpdateVelocities`
    leaves an all-zero column at zero instead, and is the one the relaxation
    loop uses. */
module Integrator {
  import opened Vectors

  // ---------------------------------------------------------------------------
  // update_positions

  /** One row of the position update, `p + v * dt + 0.5 * f * dt^2`. */
  function Advance(p: Vec2, v: Vec2, f: Vec2, dt: real): Vec2 {
    Add(Add(p, Scale(dt, v)), Scale(0.5 * (dt * dt), f))
  }

  /** `update_positions`, row by row. */
  function UpdatePositions(positions: seq<Vec2>, velocities: seq<Vec2>, forces: seq<Vec2>, dt: real): (r: seq<Vec2>)
    requires |velocities| == |positions| && |forces| == |positions|
    ensures |r| == |positions|
    ensures forall i {:trigger r[i]} :: 0 <= i < |r| ==> r[i] == Advance(positions[i], velocities[i], forces[i], dt)
  {
    if |positions| == 0 then []
    else [Advance(positions[0], velocities[0], forces[0], dt)]
         + UpdatePositions(positions[1..], velocities[1..], forces[1..], dt)
  }

  /** Bubbles at rest with no force on them stay where they are. */
  lemma AtRest(positions: seq<Vec2>, velocities: seq<Vec2>, forces: seq<Vec2>, dt: real)
    requires |velocities| == |positions| && |forces| == |positions|
    requires forall i :: 0 <= i < |positions| ==> velocities[i] == Zero && forces[i] == Zero
    ensures UpdatePositions(positions, velocities, forces, dt) == positions
  {
    var r := UpdatePositions(positions, velocities, forces, dt);
    forall i | 0 <= i < |r|
      ensures r[i] == positions[i]
    {
      assert Scale(dt, velocities[i]) == Zero && Scale(0.5 * (dt * dt), forces[i]) == Zero;
    }
  }

  /** The sum of the positions moves by the summed velocities times `dt` plus
      the summed forces times `dt^2 / 2`. */
  lemma {:induction false} UpdatePositionsSum(positions: seq<Vec2>, velocities: seq<Vec2>, forces: seq<Vec2>, dt: real)
    requires |velocities| == |positions| && |forces| == |positions|
    ensures Sum(UpdatePositions(positions, velocities, forces, dt))
            == Add(Add(Sum(positions), Scale(dt, Sum(velocities))), Scale(0.5 * (dt * dt), Sum(forces)))
  {
    if |positions| > 0 {
      var r := UpdatePositions(positions, velocities, forces, dt);
      var rest := UpdatePositions(positions[1..], velocities[1..], forces[1..], dt);
      assert r[1..] == rest;
      UpdatePositionsSum(positions[1..], velocities[1..], forces[1..], dt);
      ScaleAdd(dt, velocities[0], Sum(velocities[1..]));
      ScaleAdd(0.5 * (dt * dt), forces[0], Sum(forces[1..]));
    } else {
      assert Scale(dt, Zero) == Zero && Scale(0.5 * (dt * dt), Zero) == Zero;
    }
  }

  /** When the forces cancel, the centroid moves with the summed velocity
      alone: the force term of the update contributes nothing in total. */
  lemma CentroidDrift(positions: seq<Vec2>, velocities: seq<Vec2>, forces: seq<Vec2>, dt: real)
    requires |velocities| == |positions| && |forces| == |positions|
    requires Sum(forces) == Zero
    ensures Sum(UpdatePositions(positions, velocities, forces, dt)) == Add(Sum(positions), Scale(dt, Sum(velocities)))
  {
    UpdatePositionsSum(positions, velocities, forces, dt);
    assert Scale(0.5 * (dt * dt), Zero) == Zero;
  }

  // ---------------------------------------------------------------------------
  // update_velocities, before the normalisation

  /** One row of the kick, `v + (f + f') * 0.5 * dt`. */
  function Kick(v: Vec2, f: Vec2, f2: Vec2, dt: real): Vec2 {
    Add(v, Scale(0.5 * dt, Add(f, f2)))
  }

  /** The first line of `update_velocities`: every velocity kicked by the
      average of the old and the new force. */
  function RawVelocities(velocities: seq<Vec2>, forces: seq<Vec2>, newForces: seq<Vec2>, dt: real): (r: seq<Vec2>)
    requires |forces| == |velocities| && |newForces| == |velocities|
    ensures |r| == |velocities|
    ensures forall i {:trigger r[i]} :: 0 <= i < |r| ==> r[i] == Kick(velocities[i], forces[i], newForces[i], dt)
  {
    if |velocities| == 0 then []
    else [Kick(velocities[0], forces[0], newForces[0], dt)]
         + RawVelocities(velocities[1..], forces[1..], newForces[1..], dt)
  }

  /** The kick changes the total momentum by the summed forces: when the old
      and the new forces each sum to zero, the summed velocity is unchanged. */
  lemma {:induction false} RawVelocitiesSum(velocities: seq<Vec2>, forces: seq<Vec2>, newForces: seq<Vec2>, dt: real)
    requires |forces| == |velocities| && |newForces| == |velocities|
    ensures Sum(RawVelocities(velocities, forces, newForces, dt))
            == Add(Sum(velocities), Scale(0.5 * dt, Add(Sum(forces), Sum(newForces))))
  {
    if |velocities| > 0 {
      var r := RawVelocities(velocities, forces, newForces, dt);
      assert r[1..] == RawVelocities(velocities[1..], forces[1..], newForces[1..], dt);
      RawVelocitiesSum(velocities[1..], forces[1..], newForces[1..], dt);
      ScaleAdd(0.5 * dt, Add(forces[0], newForces[0]), Add(Sum(forces[1..]), Sum(newForces[1..])));
    } else {
      assert Scale(0.5 * dt, Add(Zero, Zero)) == Zero;
    }
  }

  /** When the old and the new forces each sum to zero, the kick leaves the
      summed velocity unchanged. */
  lemma KickBalanced(velocities: seq<Vec2>, forces: seq<Vec2>, newForces: seq<Vec2>, dt: real)
    requires |forces| == |velocities| && |newForces| == |velocities|
    requires Sum(forces) == Zero && Sum(newForces) == Zero
    ensures Sum(RawVelocities(velocities, forces, newForces, dt)) == Sum(velocities)
  {
    RawVelocitiesSum(velocities, forces, newForces, dt);
    assert Scale(0.5 * dt, Add(Zero, Zero)) == Zero;
  }

  /** Bubbles at rest with no force before or after stay at rest. */
  lemma KickAtRest(velocities: seq<Vec2>, forces: seq<Vec2>, newForces: seq<Vec2>, dt: real)
    requires |forces| == |velocities| && |newForces| == |velocities|
    requires forall i :: 0 <= i < |velocities| ==> velocities[i] == Zero && forces[i] == Zero && newForces[i] == Zero
    ensures RawVelocities(velocities, forces, newForces, dt) == velocities
  {
    var r := RawVelocities(velocities, forces, newForces, dt);
    forall i | 0 <= i < |r|
      ensures r[i] == velocities[i]
    {
      assert Scale(0.5 * dt, Add(Zero, Zero)) == Zero;
    }
  }

  // ---------------------------------------------------------------------------
  // The column norms, `np.linalg.norm(v, axis=0)`

  /** The Euclidean norm of the x column. */
  function NormX(sqrt: real -> real, vs: seq<Vec2>): (n: real)
    requires IsSqrt(sqrt)
    ensures n >= 0.0 && Sq(n) == SumSqX(vs)
    ensures n > 0.0 <==> exists i :: 0 <= i < |vs| && vs[i].x != 0.0
  {
    SumSqXPositive(vs);
    SqrtFacts(sqrt, SumSqX(vs));
    sqrt(SumSqX(vs))
  }

  /** The Euclidean norm of the y column. */
  function NormY(sqrt: real -> real, vs: seq<Vec2>): (n: real)
    requires IsSqrt(sqrt)
    ensures n >= 0.0 && Sq(n) == SumSqY(vs)
    ensures n > 0.0 <==> exists i :: 0 <= i < |vs| && vs[i].y != 0.0
  {
    SumSqYPositive(vs);
    SqrtFacts(sqrt, SumSqY(vs));
    sqrt(SumSqY(vs))
  }

  /** Every row divided column-wise by `(nx, ny)`. */
  function Divide(vs: seq<Vec2>, nx: real, ny: real): (r: seq<Vec2>)
    requires nx > 0.0 && ny > 0.0
    ensures |r| == |vs|
    ensures forall i {:trigger r[i]} :: 0 <= i < |r| ==> r[i] == Vec2(vs[i].x / nx, vs[i].y / ny)
  {
    if |vs| == 0 then []
    else [Vec2(vs[0].x / nx, vs[0].y / ny)] + Divide(vs[1..], nx, ny)
  }

  /** `r` is `vs` with its x column divided by `nx` and its y column by `ny`,
      both positive. */
  predicate DividedBy(r: seq<Vec2>, vs: seq<Vec2>, nx: real, ny: real) {
    && nx > 0.0 && ny > 0.0 && |r| == |vs|
    && forall i :: 0 <= i < |r| ==> r[i] == Vec2(vs[i].x / nx, vs[i].y / ny)
  }

  /** Each column of `r` is the same column of `vs` scaled by one positive
      factor: the shape of a column-wise normalisation. */
  ghost predicate ColumnsScaled(r: seq<Vec2>, vs: seq<Vec2>) {
    exists nx, ny :: DividedBy(r, vs, nx, ny)
  }

  /** `a / n` times `n` is `a`, so its square times `n^2` is `a^2`. */
  lemma DivSquare(a: real, n: real)
    requires n != 0.0
    ensures Sq(a / n) * Sq(n) == Sq(a)
  {
    var q := a / n;
    assert q * n == a;
    assert (q * q) * (n * n) == (q * n) * (q * n);
  }

  lemma {:induction false} DivideSumSqX(vs: seq<Vec2>, nx: real, ny: real)
    requires nx > 0.0 && ny > 0.0
    ensures SumSqX(Divide(vs, nx, ny)) * Sq(nx) == SumSqX(vs)
  {
    if |vs| > 0 {
      var r := Divide(vs, nx, ny);
      assert r[1..] == Divide(vs[1..], nx, ny);
      DivideSumSqX(vs[1..], nx, ny);
      DivSquare(vs[0].x, nx);
      assert (Sq(vs[0].x / nx) + SumSqX(r[1..])) * Sq(nx) == Sq(vs[0].x / nx) * Sq(nx) + SumSqX(r[1..]) * Sq(nx);
    }
  }

  lemma {:induction false} DivideSumSqY(vs: seq<Vec2>, nx: real, ny: real)
    requires nx > 0.0 && ny > 0.0
    ensures SumSqY(Divide(vs, nx, ny)) * Sq(ny) == SumSqY(vs)
  {
    if |vs| > 0 {
      var r := Divide(vs, nx, ny);
      assert r[1..] == Divide(vs[1..], nx, ny);
      DivideSumSqY(vs[1..], nx, ny);
      DivSquare(vs[0].y, ny);
      assert (Sq(vs[0].y / ny) + SumSqY(r[1..])) * Sq(ny) == Sq(vs[0].y / ny) * Sq(ny) + SumSqY(r[1..]) * Sq(ny);
    }
  }

  /** A quantity that times `n^2` gives `n^2` back is 1. */
  lemma CancelSquare(after: real, before: real, n: real)
    requires n != 0.0 && Sq(n) == before && after * Sq(n) == before
    ensures after == 1.0
  {
    AboveSquarePositive(before, n);
    assert after * before == after * Sq(n) == before;
    assert (after - 1.0) * before == 0.0;
  }

  /** Dividing a column by its own positive norm gives a unit column. */
  lemma UnitAfterDivideX(vs: seq<Vec2>, nx: real, ny: real)
    requires nx > 0.0 && ny > 0.0 && Sq(nx) == SumSqX(vs)
    ensures SumSqX(Divide(vs, nx, ny)) == 1.0
  {
    DivideSumSqX(vs, nx, ny);
    CancelSquare(SumSqX(Divide(vs, nx, ny)), SumSqX(vs), nx);
  }

  lemma UnitAfterDivideY(vs: seq<Vec2>, nx: real, ny: real)
    requires nx > 0.0 && ny > 0.0 && Sq(ny) == SumSqY(vs)
    ensures SumSqY(Divide(vs, nx, ny)) == 1.0
  {
    DivideSumSqY(vs, nx, ny);
    CancelSquare(SumSqY(Divide(vs, nx, ny)), SumSqY(vs), ny);
  }

  /** `a` and `b` are both positive, both negative or both zero. */
  predicate SameSign(a: real, b: real) {
    (a > 0.0 <==> b > 0.0) && (a < 0.0 <==> b < 0.0)
  }

  /** Dividing by a positive number keeps the sign. */
  lemma DivSign(a: real, n: real)
    requires n > 0.0
    ensures SameSign(a / n, a)
  {
    var q := a / n;
    assert q * n == a;
    if q > 0.0 {
      MulPos(q, n);
    } else if q < 0.0 {
      MulPos(-q, n);
      assert (-q) * n == -(q * n);
    }
  }

  /** Dividing column-wise by positive numbers keeps the sign of every entry. */
  lemma DivideSigns(vs: seq<Vec2>, nx: real, ny: real)
    requires nx > 0.0 && ny > 0.0
    ensures var r := Divide(vs, nx, ny);
            forall i :: 0 <= i < |r| ==> SameSign(r[i].x, vs[i].x) && SameSign(r[i].y, vs[i].y)
  {
    forall i | 0 <= i < |vs|
      ensures SameSign(vs[i].x / nx, vs[i].x) && SameSign(vs[i].y / ny, vs[i].y)
    {
      DivSign(vs[i].x, nx);
      DivSign(vs[i].y, ny);
    }
  }

  // ---------------------------------------------------------------------------
  // The normalisation, as written and guarded

  /** Both columns have a non-zero entry, so both column norms are positive
      and the source's division is defined. */
  predicate ColumnsNonZero(vs: seq<Vec2>) {
    && (exists i :: 0 <= i < |vs| && vs[i].x != 0.0)
    && (exists i :: 0 <= i < |vs| && vs[i].y != 0.0)
  }

  /** `update_velocities` as the source writes it: the kick, then every column
      divided by its norm. The division needs both column norms non-zero
      unless there are no bubbles at all (numpy divides an empty array by a
      zero norm without touching an element). The result has unit columns
      and keeps the sign of every entry of the kicked velocities. */
  function UpdateVelocitiesAsWritten(sqrt: real -> real, velocities: seq<Vec2>, forces: seq<Vec2>, newForces: seq<Vec2>, dt: real): (r: seq<Vec2>)
    requires IsSqrt(sqrt)
    requires |forces| == |velocities| && |newForces| == |velocities|
    requires |velocities| == 0 || ColumnsNonZero(RawVelocities(velocities, forces, newForces, dt))
    ensures |r| == |velocities|
    ensures |r| > 0 ==> SumSqX(r) == 1.0 && SumSqY(r) == 1.0
    ensures var raw := RawVelocities(velocities, forces, newForces, dt);
            forall i :: 0 <= i < |r| ==> SameSign(r[i].x, raw[i].x) && SameSign(r[i].y, raw[i].y)
    ensures ColumnsScaled(r, RawVelocities(velocities, forces, newForces, dt))
  {
    var raw := RawVelocities(velocities, forces, newForces, dt);
    if |raw| == 0 then
      assert DividedBy([], raw, 1.0, 1.0);
      []
    else
      var nx := NormX(sqrt, raw);
      var ny := NormY(sqrt, raw);
      UnitAfterDivideX(raw, nx, ny);
      UnitAfterDivideY(raw, nx, ny);
      DivideSigns(raw, nx, ny);
      assert DividedBy(Divide(raw, nx, ny), raw, nx, ny);
      Divide(raw, nx, ny)
  }

  /** The divisor the guarded normalisation uses for a column of norm `n`:
      the norm itself, or 1 for an all-zero column, which then stays zero. */
  function Divisor(n: real): (d: real)
    ensures d > 0.0
    ensures n > 0.0 ==> d == n
  {
    if n > 0.0 then n else 1.0
  }

  /** The column normalisation with the zero-column guard: a column with a
      non-zero entry is scaled to unit length. */
  function NormaliseColumns(sqrt: real -> real, vs: seq<Vec2>): (r: seq<Vec2>)
    requires IsSqrt(sqrt)
    ensures |r| == |vs|
    ensures (exists i :: 0 <= i < |vs| && vs[i].x != 0.0) ==> SumSqX(r) == 1.0
    ensures (exists i :: 0 <= i < |vs| && vs[i].y != 0.0) ==> SumSqY(r) == 1.0
    ensures ColumnsScaled(r, vs)
  {
    var nx := NormX(sqrt, vs);
    var ny := NormY(sqrt, vs);
    GuardedUnit(vs, nx, ny);
    assert DividedBy(Divide(vs, Divisor(nx), Divisor(ny)), vs, Divisor(nx), Divisor(ny));
    Divide(vs, Divisor(nx), Divisor(ny))
  }

  /** The guarded normalisation keeps the sign of every entry, so an all-zero
      column is left at zero. */
  lemma NormaliseColumnsSigns(sqrt: real -> real, vs: seq<Vec2>)
    requires IsSqrt(sqrt)
    ensures var r := NormaliseColumns(sqrt, vs);
            forall i :: 0 <= i < |r| ==> SameSign(r[i].x, vs[i].x) && SameSign(r[i].y, vs[i].y)
  {
    DivideSigns(vs, Divisor(NormX(sqrt, vs)), Divisor(NormY(sqrt, vs)));
  }

  /** A column whose norm is positive comes out of the guarded division with
      unit length. */
  lemma GuardedUnit(vs: seq<Vec2>, nx: real, ny: real)
    requires nx >= 0.0 && Sq(nx) == SumSqX(vs)
    requires ny >= 0.0 && Sq(ny) == SumSqY(vs)
    ensures nx > 0.0 ==> SumSqX(Divide(vs, Divisor(nx), Divisor(ny))) == 1.0
    ensures ny > 0.0 ==> SumSqY(Divide(vs, Divisor(nx), Divisor(ny))) == 1.0
  {
    if nx > 0.0 {
      UnitAfterDivideX(vs, nx, Divisor(ny));
    }
    if ny > 0.0 {
      UnitAfterDivideY(vs, Divisor(nx), ny);
    }
  }

  /** Each column has unit length or is all zero: the shape the guarded
      normalisation leaves behind. */
  predicate UnitOrZeroColumns(vs: seq<Vec2>) {
    && (SumSqX(vs) == 1.0 || forall i :: 0 <= i < |vs| ==> vs[i].x == 0.0)
    && (SumSqY(vs) == 1.0 || forall i :: 0 <= i < |vs| ==> vs[i].y == 0.0)
  }

  lemma NormaliseColumnsShape(sqrt: real -> real, vs: seq<Vec2>)
    requires IsSqrt(sqrt)
    ensures UnitOrZeroColumns(NormaliseColumns(sqrt, vs))
  {
    var r := NormaliseColumns(sqrt, vs);
    NormaliseColumnsSigns(sqrt, vs);
    if !(exists i :: 0 <= i < |vs| && vs[i].x != 0.0) {
      assert forall i :: 0 <= i < |r| ==> r[i].x == 0.0 by {
        forall i | 0 <= i < |r|
          ensures r[i].x == 0.0
        {
          assert SameSign(r[i].x, vs[i].x);
        }
      }
    }
    if !(exists i :: 0 <= i < |vs| && vs[i].y != 0.0) {
      assert forall i :: 0 <= i < |r| ==> r[i].y == 0.0 by {
        forall i | 0 <= i < |r|
          ensures r[i].y == 0.0
        {
          assert SameSign(r[i].y, vs[i].y);
        }
      }
    }
  }

  /** Dividing by one changes nothing. */
  lemma DivideByOne(vs: seq<Vec2>)
    ensures Divide(vs, 1.0, 1.0) == vs
  {
    var r := Divide(vs, 1.0, 1.0);
    assert forall i :: 0 <= i < |r| ==> r[i] == vs[i];
  }

  /** The guarded normalisation is idempotent: a velocity array that is
      already normalised comes back unchanged. */
  lemma NormaliseColumnsIdempotent(sqrt: real -> real, vs: seq<Vec2>)
    requires IsSqrt(sqrt)
    ensures var once := NormaliseColumns(sqrt, vs);
            NormaliseColumns(sqrt, once) == once
  {
    var once := NormaliseColumns(sqrt, vs);
    NormaliseColumnsShape(sqrt, vs);
    assert Divisor(NormX(sqrt, once)) == 1.0 by {
      UnitNorm(NormX(sqrt, once), SumSqX(once));
    }
    assert Divisor(NormY(sqrt, once)) == 1.0 by {
      UnitNorm(NormY(sqrt, once), SumSqY(once));
    }
    DivideByOne(once);
  }

  /** A column norm is 1 when the column has unit length and 0 when it is
      all zero; in both cases the guarded divisor is 1. */
  lemma UnitNorm(n: real, s: real)
    requires n >= 0.0 && Sq(n) == s
    requires s == 1.0 || s == 0.0
    ensures Divisor(n) == 1.0
  {
    if s == 1.0 {
      SquareInjective(n, 1.0);
    } else {
      SquareZero(n);
    }
  }

  /** `update_velocities` with the zero-column guard. */
  function UpdateVelocities(sqrt: real -> real, velocities: seq<Vec2>, forces: seq<Vec2>, newForces: seq<Vec2>, dt: real): (r: seq<Vec2>)
    requires IsSqrt(sqrt)
    requires |forces| == |velocities| && |newForces| == |velocities|
    ensures |r| == |velocities|
    ensures UnitOrZeroColumns(r)
    ensures ColumnsScaled(r, RawVelocities(velocities, forces, newForces, dt))
  {
    var raw := RawVelocities(velocities, forces, newForces, dt);
    NormaliseColumnsShape(sqrt, raw);
    NormaliseColumns(sqrt, raw)
  }

  /** Zero rows stay zero under the guarded normalisation. */
  lemma NormaliseZeros(sqrt: real -> real, vs: seq<Vec2>)
    requires IsSqrt(sqrt)
    requires forall k :: 0 <= k < |vs| ==> vs[k] == Zero
    ensures NormaliseColumns(sqrt, vs) == vs
  {
    assert NormX(sqrt, vs) == 0.0 && NormY(sqrt, vs) == 0.0;
    DivideByOne(vs);
  }

  /** Bubbles at rest with no force before or after keep zero velocities
      under the guarded update. */
  lemma UpdateVelocitiesAtRest(sqrt: real -> real, velocities: seq<Vec2>, forces: seq<Vec2>, newForces: seq<Vec2>, dt: real)
    requires IsSqrt(sqrt)
    requires |forces| == |velocities| && |newForces| == |velocities|
    requires forall i :: 0 <= i < |velocities| ==> velocities[i] == Zero && forces[i] == Zero && newForces[i] == Zero
    ensures UpdateVelocities(sqrt, velocities, forces, newForces, dt) == velocities
  {
    KickAtRest(velocities, forces, newForces, dt);
    NormaliseZeros(sqrt, velocities);
  }

  /** Wherever the source's division is defined, the guarded update computes
      exactly what the source computes. */
  lemma UpdateVelocitiesAgree(sqrt: real -> real, velocities: seq<Vec2>, forces: seq<Vec2>, newForces: seq<Vec2>, dt: real)
    requires IsSqrt(sqrt)
    requires |forces| == |velocities| && |newForces| == |velocities|
    requires |velocities| == 0 || ColumnsNonZero(RawVelocities(velocities, forces, newForces, dt))
    ensures UpdateVelocities(sqrt, velocities, forces, newForces, dt)
            == UpdateVelocitiesAsWritten(sqrt, velocities, forces, newForces, dt)
  {
  }

  /** A positive divisor that scales a column to unit length is the
      column's norm. */
  lemma SameSquare(c: real, n: real, after: real, before: real)
    requires c > 0.0 && n >= 0.0 && Sq(n) == before
    requires after == 1.0 && after * Sq(c) == before
    ensures c == n && n > 0.0
  {
    SquareInjective(c, n);
  }

  /** A column-wise positive scaling with unit columns is division by the
      column norms: unit length and one positive factor per column determine
      the normalised velocities completely. */
  lemma UnitScalingUnique(sqrt: real -> real, r: seq<Vec2>, vs: seq<Vec2>)
    requires IsSqrt(sqrt)
    requires ColumnsScaled(r, vs) && SumSqX(r) == 1.0 && SumSqY(r) == 1.0
    ensures NormX(sqrt, vs) > 0.0 && NormY(sqrt, vs) > 0.0
    ensures r == Divide(vs, NormX(sqrt, vs), NormY(sqrt, vs))
  {
    var nx, ny :| DividedBy(r, vs, nx, ny);
    var d := Divide(vs, nx, ny);
    assert r == d;
    DivideSumSqX(vs, nx, ny);
    DivideSumSqY(vs, nx, ny);
    SameSquare(nx, NormX(sqrt, vs), SumSqX(d), SumSqX(vs));
    SameSquare(ny, NormY(sqrt, vs), SumSqY(d), SumSqY(vs));
  }

  // ---------------------------------------------------------------------------
  // A column that is zero throughout

  /** With at least one bubble, an all-zero column leaves the source's
      division undefined. */
  lemma ZeroColumnUndefined(vs: seq<Vec2>, a: Axis)
    requires |vs| > 0 && ZeroColumn(vs, a)
    ensures !ColumnsNonZero(vs)
  {
  }

  /** With no velocity and no force along an axis, no bubble moves along it. */
  lemma UpdatePositionsAlongLine(positions: seq<Vec2>, velocities: seq<Vec2>, forces: seq<Vec2>, dt: real, a: Axis)
    requires |velocities| == |positions| && |forces| == |positions|
    requires ZeroColumn(velocities, a) && ZeroColumn(forces, a)
    ensures var r := UpdatePositions(positions, velocities, forces, dt);
            forall i :: 0 <= i < |r| ==> Component(r[i], a) == Component(positions[i], a)
  {
  }

  /** With no velocity and no force, old or new, along an axis, the kicked
      velocities have an all-zero column there. */
  lemma KickAlongLine(velocities: seq<Vec2>, forces: seq<Vec2>, newForces: seq<Vec2>, dt: real, a: Axis)
    requires |forces| == |velocities| && |newForces| == |velocities|
    requires ZeroColumn(velocities, a) && ZeroColumn(forces, a) && ZeroColumn(newForces, a)
    ensures ZeroColumn(RawVelocities(velocities, forces, newForces, dt), a)
  {
  }

  /** The guarded normalisation leaves an all-zero column at zero. */
  lemma NormaliseKeepsZeroColumn(sqrt: real -> real, vs: seq<Vec2>, a: Axis)
    requires IsSqrt(sqrt) && ZeroColumn(vs, a)
    ensures ZeroColumn(NormaliseColumns(sqrt, vs), a)
  {
  }
}
