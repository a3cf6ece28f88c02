/** The relaxation loop, `optimise_positions`, and the layout entry point
    `get_centres` that spawns the bubbles on a grid and then relaxes them.

    The loop is a velocity-Verlet integration with a fixed time step: new
    positions from the current velocities and forces, new forces at the new
    positions, new velocities from the average of the two forces. A state of
    the loop is the triple of positions, velocities and forces; it is `Valid`
    when the forces are the pair forces of its positions.

    A pass is defined when the new positions are pairwise distinct, so that
    the new forces exist. `Run` is total: it leaves a state unchanged where a
    pass cannot be taken. Most statements about it require `RunDefined`,
    which says that no such state is met; `RunValid` and
    `LineRunStaysOnLine` do not, and also hold for runs that stop changing.
    The velocity update is the guarded one. `SourceRun` iterates the source's
    own pass, and its facts are stated under `SourceRunDefined`: where the
    source's division is defined the two agree (`StepAgreesWithSource`,
    `SourceRunAgrees`); elsewhere the source produces NaN, which is not
    modelled. */
module Relaxation {
  import opened Vectors
  import opened Forces
  import opened Integrator
  import opened Spawn
  import opened Iteration

  /** The integrator's time step. */
  const TimeStep: real := 0.01

  datatype State = State(positions: seq<Vec2>, velocities: seq<Vec2>, forces: seq<Vec2>)

  datatype Option<T> = None | Some(value: T)

  /** One row per bubble, pairwise distinct positions, and the forces those
      positions produce. */
  predicate Valid(sqrt: real -> real, radii: seq<real>, s: State)
    requires IsSqrt(sqrt)
  {
    && Admissible(radii, s.positions)
    && |s.velocities| == |radii|
    && s.forces == VdwForces(sqrt, radii, s.positions)
  }

  /** The state before the first step: bubbles at rest at the given centres. */
  function Initial(sqrt: real -> real, radii: seq<real>, centres: seq<Vec2>): (s: State)
    requires IsSqrt(sqrt) && Admissible(radii, centres)
    ensures Valid(sqrt, radii, s)
    ensures s.positions == centres
    ensures forall k :: 0 <= k < |s.velocities| ==> s.velocities[k] == Zero
  {
    State(centres, Zeros(|radii|), VdwForces(sqrt, radii, centres))
  }

  /** The positions after one step. */
  function NextPositions(sqrt: real -> real, radii: seq<real>, dt: real, s: State): (p: seq<Vec2>)
    requires IsSqrt(sqrt) && Valid(sqrt, radii, s)
    ensures |p| == |radii|
  {
    UpdatePositions(s.positions, s.velocities, s.forces, dt)
  }

  /** The forces after one step can be computed: no two bubbles have moved
      onto the same point. */
  predicate StepDefined(sqrt: real -> real, radii: seq<real>, dt: real, s: State)
    requires IsSqrt(sqrt) && Valid(sqrt, radii, s)
  {
    Admissible(radii, NextPositions(sqrt, radii, dt, s))
  }

  /** One pass of the loop body: new positions from the current velocities
      and forces, the forces at the new positions, and velocities kicked by
      the average force and then normalised column by column. */
  function Step(sqrt: real -> real, radii: seq<real>, dt: real, s: State): (t: State)
    requires IsSqrt(sqrt) && Valid(sqrt, radii, s) && StepDefined(sqrt, radii, dt, s)
    ensures Valid(sqrt, radii, t)
  {
    var positions := NextPositions(sqrt, radii, dt, s);
    var forces := VdwForces(sqrt, radii, positions);
    State(positions, UpdateVelocities(sqrt, s.velocities, s.forces, forces, dt), forces)
  }

  /** A step moves the centroid with the summed velocity alone: the pair
      forces cancel. */
  lemma StepMovesCentroid(sqrt: real -> real, radii: seq<real>, dt: real, s: State)
    requires IsSqrt(sqrt) && Valid(sqrt, radii, s) && StepDefined(sqrt, radii, dt, s)
    ensures Sum(Step(sqrt, radii, dt, s).positions) == Add(Sum(s.positions), Scale(dt, Sum(s.velocities)))
  {
    VdwForcesBalanced(sqrt, radii, s.positions);
    CentroidDrift(s.positions, s.velocities, s.forces, dt);
  }

  /** A step can be taken from `s`. */
  predicate Ready(sqrt: real -> real, radii: seq<real>, dt: real, s: State)
    requires IsSqrt(sqrt)
  {
    Valid(sqrt, radii, s) && StepDefined(sqrt, radii, dt, s)
  }

  /** The loop body as a total map on states: a step where one can be taken,
      and no change elsewhere. */
  function Next(sqrt: real -> real, radii: seq<real>, dt: real): State -> State
    requires IsSqrt(sqrt)
  {
    s => if Ready(sqrt, radii, dt, s) then Step(sqrt, radii, dt, s) else s
  }

  /** A valid state stays valid under `Next`. */
  lemma NextKeepsValid(sqrt: real -> real, radii: seq<real>, dt: real)
    requires IsSqrt(sqrt)
    ensures forall s :: Valid(sqrt, radii, s) ==> Valid(sqrt, radii, Next(sqrt, radii, dt)(s))
  {
    forall s | Valid(sqrt, radii, s)
      ensures Valid(sqrt, radii, Next(sqrt, radii, dt)(s))
    {
      if Ready(sqrt, radii, dt, s) {
        assert Next(sqrt, radii, dt)(s) == Step(sqrt, radii, dt, s);
      }
    }
  }

  /** The state after `n` passes of the loop body. */
  function Run(sqrt: real -> real, radii: seq<real>, dt: real, s: State, n: nat): State
    requires IsSqrt(sqrt)
  {
    Iterate(Next(sqrt, radii, dt), s, n)
  }

  /** From a valid state every state reached is valid. */
  lemma RunValid(sqrt: real -> real, radii: seq<real>, dt: real, s: State, n: nat)
    requires IsSqrt(sqrt) && Valid(sqrt, radii, s)
    ensures Valid(sqrt, radii, Run(sqrt, radii, dt, s, n))
  {
    NextKeepsValid(sqrt, radii, dt);
    Invariant((x: State) => Valid(sqrt, radii, x), Next(sqrt, radii, dt), s, n);
  }

  /** Every one of the next `n` passes can be taken: from the start, and from
      each state reached. */
  predicate RunDefined(sqrt: real -> real, radii: seq<real>, dt: real, s: State, n: nat)
    requires IsSqrt(sqrt)
  {
    Along((x: State) => Ready(sqrt, radii, dt, x), Next(sqrt, radii, dt), s, n)
  }

  /** `RunDefined` holds exactly when a step can be taken after each of the
      first `n` step counts. */
  lemma RunDefinedEvery(sqrt: real -> real, radii: seq<real>, dt: real, s: State, n: nat)
    requires IsSqrt(sqrt)
    ensures RunDefined(sqrt, radii, dt, s, n) <==>
            forall k :: 0 <= k < n ==> Ready(sqrt, radii, dt, Run(sqrt, radii, dt, s, k))
  {
    var ready := (x: State) => Ready(sqrt, radii, dt, x);
    AlongEvery(ready, Next(sqrt, radii, dt), s, n);
    forall k | 0 <= k < n
      ensures ready(Iterate(Next(sqrt, radii, dt), s, k)) == Ready(sqrt, radii, dt, Run(sqrt, radii, dt, s, k))
    {
    }
  }

  /** Within a defined run, pass `k + 1` is a step from the state after `k`. */
  lemma RunStep(sqrt: real -> real, radii: seq<real>, dt: real, s: State, n: nat, k: nat)
    requires IsSqrt(sqrt) && RunDefined(sqrt, radii, dt, s, n) && k < n
    ensures Ready(sqrt, radii, dt, Run(sqrt, radii, dt, s, k))
    ensures Run(sqrt, radii, dt, s, k + 1) == Step(sqrt, radii, dt, Run(sqrt, radii, dt, s, k))
  {
    RunDefinedEvery(sqrt, radii, dt, s, n);
    IterateLast(Next(sqrt, radii, dt), s, k);
  }

  /** Running `a + b` passes is running `a` and then `b` more, and the longer
      run is defined exactly when both parts are. */
  lemma RunSplit(sqrt: real -> real, radii: seq<real>, dt: real, s: State, a: nat, b: nat)
    requires IsSqrt(sqrt)
    ensures Run(sqrt, radii, dt, s, a + b) == Run(sqrt, radii, dt, Run(sqrt, radii, dt, s, a), b)
    ensures RunDefined(sqrt, radii, dt, s, a + b) <==>
            RunDefined(sqrt, radii, dt, s, a) && RunDefined(sqrt, radii, dt, Run(sqrt, radii, dt, s, a), b)
  {
    IterateSplit(Next(sqrt, radii, dt), s, a, b);
    AlongSplit((x: State) => Ready(sqrt, radii, dt, x), Next(sqrt, radii, dt), s, a, b);
  }

  /** After at least one pass of a defined run, every velocity column is of
      unit length or all zero. */
  lemma RunVelocitiesNormalised(sqrt: real -> real, radii: seq<real>, dt: real, s: State, n: nat)
    requires IsSqrt(sqrt) && RunDefined(sqrt, radii, dt, s, n) && n > 0
    ensures UnitOrZeroColumns(Run(sqrt, radii, dt, s, n).velocities)
  {
    RunStep(sqrt, radii, dt, s, n, n - 1);
  }

  /** The positions recorded by `return_traj`: entry `k` holds the positions
      after `k` passes, from the starting positions to those after the last. */
  function Trajectory(sqrt: real -> real, radii: seq<real>, dt: real, s: State, n: nat): (t: seq<seq<Vec2>>)
    requires IsSqrt(sqrt)
    ensures |t| == n + 1
    ensures forall k :: 0 <= k <= n ==> t[k] == Run(sqrt, radii, dt, s, k).positions
    decreases n
  {
    if n == 0 then [s.positions]
    else Trajectory(sqrt, radii, dt, s, n - 1) + [Run(sqrt, radii, dt, s, n).positions]
  }

  /** The body of the loop of `optimise_positions`, on the loop's variables:
      from the state after `i` passes of a defined run it reaches the state
      after `i + 1`, whose forces are those of its positions and whose
      velocity columns are each of unit length or all zero. */
  method Pass(sqrt: real -> real, radii: seq<real>, dt: real, positions: seq<Vec2>, velocities: seq<Vec2>, forces: seq<Vec2>,
              ghost start: State, ghost n: nat, ghost i: nat)
    returns (newPositions: seq<Vec2>, newVelocities: seq<Vec2>, newForces: seq<Vec2>)
    requires IsSqrt(sqrt) && RunDefined(sqrt, radii, dt, start, n) && i < n
    requires State(positions, velocities, forces) == Run(sqrt, radii, dt, start, i)
    ensures State(newPositions, newVelocities, newForces) == Run(sqrt, radii, dt, start, i + 1)
    ensures Valid(sqrt, radii, State(newPositions, newVelocities, newForces))
    ensures UnitOrZeroColumns(newVelocities)
  {
    RunStep(sqrt, radii, dt, start, n, i);
    newPositions := UpdatePositions(positions, velocities, forces, dt);
    newForces := VdwForces(sqrt, radii, newPositions);
    newVelocities := UpdateVelocities(sqrt, velocities, forces, newForces, dt);
  }

  /** `optimise_positions` for `n` steps: start at rest at the given centres,
      then apply the loop body `n` times, recording the positions when asked
      to. The result is `n` passes of the reference `Run`, and the recorded
      trajectory starts at the given centres and ends at the result. The
      loop body uses the guarded velocity update, so where a kicked column is
      all zero it keeps finite velocities where the source computes NaN;
      wherever the source's own run is defined, the result is the source's.
      The source always steps with `TimeStep`; `get_centres` passes it
      here. */
  method OptimisePositions(sqrt: real -> real, radii: seq<real>, centres: seq<Vec2>, n: nat, dt: real, returnTraj: bool)
    returns (positions: seq<Vec2>, traj: seq<seq<Vec2>>)
    requires IsSqrt(sqrt) && Admissible(radii, centres)
    requires RunDefined(sqrt, radii, dt, Initial(sqrt, radii, centres), n)
    ensures positions == Run(sqrt, radii, dt, Initial(sqrt, radii, centres), n).positions
    ensures Admissible(radii, positions)
    ensures returnTraj ==> traj == Trajectory(sqrt, radii, dt, Initial(sqrt, radii, centres), n)
    ensures returnTraj ==> |traj| == n + 1 && traj[0] == centres && traj[n] == positions
    ensures !returnTraj ==> traj == []
    ensures SourceRunDefined(sqrt, radii, dt, Initial(sqrt, radii, centres), n) ==>
            positions == SourceRun(sqrt, radii, dt, Initial(sqrt, radii, centres), n).positions
  {
    ghost var start := Initial(sqrt, radii, centres);
    var velocities := Zeros(|radii|);
    var forces := VdwForces(sqrt, radii, centres);
    positions := centres;
    traj := if returnTraj then [positions] else [];
    var i := 0;
    while i < n
      invariant 0 <= i <= n
      invariant State(positions, velocities, forces) == Run(sqrt, radii, dt, start, i)
      invariant Valid(sqrt, radii, State(positions, velocities, forces))
      invariant returnTraj ==> traj == Trajectory(sqrt, radii, dt, start, i)
      invariant !returnTraj ==> traj == []
    {
      positions, velocities, forces := Pass(sqrt, radii, dt, positions, velocities, forces, start, n, i);
      if returnTraj {
        traj := traj + [positions];
      }
      i := i + 1;
    }
    SourceAgreesWhereDefined(sqrt, radii, dt, start, n);
  }

  // ---------------------------------------------------------------------------
  // Momentum and equilibrium

  /** The kick of a step leaves the summed velocity unchanged: the old and the
      new forces each sum to zero. Only the normalisation that follows it
      changes the total momentum. */
  lemma KickConservesMomentum(sqrt: real -> real, radii: seq<real>, dt: real, s: State)
    requires IsSqrt(sqrt) && Valid(sqrt, radii, s) && StepDefined(sqrt, radii, dt, s)
    ensures var next := VdwForces(sqrt, radii, NextPositions(sqrt, radii, dt, s));
            Sum(RawVelocities(s.velocities, s.forces, next, dt)) == Sum(s.velocities)
  {
    var positions := NextPositions(sqrt, radii, dt, s);
    VdwForcesBalanced(sqrt, radii, s.positions);
    VdwForcesBalanced(sqrt, radii, positions);
    KickBalanced(s.velocities, s.forces, VdwForces(sqrt, radii, positions), dt);
  }

  /** No bubble moves and no force acts. */
  predicate AtEquilibrium(s: State) {
    && |s.forces| == |s.velocities|
    && forall k :: 0 <= k < |s.velocities| ==> s.velocities[k] == Zero && s.forces[k] == Zero
  }

  /** A valid state at equilibrium is a fixed point of the step. */
  lemma EquilibriumIsFixedPoint(sqrt: real -> real, radii: seq<real>, dt: real, s: State)
    requires IsSqrt(sqrt) && Valid(sqrt, radii, s) && AtEquilibrium(s)
    ensures StepDefined(sqrt, radii, dt, s)
    ensures Step(sqrt, radii, dt, s) == s
  {
    var positions := NextPositions(sqrt, radii, dt, s);
    AtRest(s.positions, s.velocities, s.forces, dt);
    assert positions == s.positions;
    UpdateVelocitiesAtRest(sqrt, s.velocities, s.forces, s.forces, dt);
    assert Step(sqrt, radii, dt, s)
        == State(s.positions, UpdateVelocities(sqrt, s.velocities, s.forces, s.forces, dt), s.forces);
  }

  /** From equilibrium, every number of steps is defined and changes nothing. */
  lemma EquilibriumPersists(sqrt: real -> real, radii: seq<real>, dt: real, s: State, n: nat)
    requires IsSqrt(sqrt) && Valid(sqrt, radii, s) && AtEquilibrium(s)
    ensures RunDefined(sqrt, radii, dt, s, n)
    ensures Run(sqrt, radii, dt, s, n) == s
  {
    EquilibriumIsFixedPoint(sqrt, radii, dt, s);
    assert Next(sqrt, radii, dt)(s) == s;
    FixedPoint((x: State) => Ready(sqrt, radii, dt, x), Next(sqrt, radii, dt), s, n);
  }

  /** A single bubble feels no force, so it never moves. */
  lemma SingleBubbleStaysPut(sqrt: real -> real, radii: seq<real>, dt: real, centres: seq<Vec2>, n: nat)
    requires IsSqrt(sqrt) && |radii| == 1 && |centres| == 1
    ensures Admissible(radii, centres)
    ensures RunDefined(sqrt, radii, dt, Initial(sqrt, radii, centres), n)
    ensures Run(sqrt, radii, dt, Initial(sqrt, radii, centres), n).positions == centres
  {
    EquilibriumPersists(sqrt, radii, dt, Initial(sqrt, radii, centres), n);
  }

  /** In the source, a step from equilibrium divides a zero velocity column by
      its zero norm: the kicked velocities are all zero, so the division that
      `UpdateVelocitiesAsWritten` requires is undefined whenever there is a
      bubble. */
  lemma EquilibriumBreaksSourceNormalisation(sqrt: real -> real, radii: seq<real>, dt: real, s: State)
    requires IsSqrt(sqrt) && Valid(sqrt, radii, s) && AtEquilibrium(s) && |radii| > 0
    ensures StepDefined(sqrt, radii, dt, s)
    ensures var next := VdwForces(sqrt, radii, NextPositions(sqrt, radii, dt, s));
            !ColumnsNonZero(RawVelocities(s.velocities, s.forces, next, dt))
  {
    EquilibriumIsFixedPoint(sqrt, radii, dt, s);
    KickAtRest(s.velocities, s.forces, s.forces, dt);
    assert s.velocities[0].x == 0.0;
  }

  /** A single bubble reaches that case at the very first step of the source:
      it starts at rest and no force acts on it. */
  lemma OneBubbleFirstStepUndefined(sqrt: real -> real, radii: seq<real>, dt: real, centres: seq<Vec2>)
    requires IsSqrt(sqrt) && |radii| == 1 && |centres| == 1
    ensures Admissible(radii, centres)
    ensures var s := Initial(sqrt, radii, centres);
            && StepDefined(sqrt, radii, dt, s)
            && !ColumnsNonZero(RawVelocities(s.velocities, s.forces,
                 VdwForces(sqrt, radii, NextPositions(sqrt, radii, dt, s)), dt))
  {
    EquilibriumBreaksSourceNormalisation(sqrt, radii, dt, Initial(sqrt, radii, centres));
  }

  /** Wherever the source's normalisation is defined, a step computes the
      velocities the source computes. */
  lemma StepAgreesWithSource(sqrt: real -> real, radii: seq<real>, dt: real, s: State)
    requires IsSqrt(sqrt) && Valid(sqrt, radii, s) && StepDefined(sqrt, radii, dt, s)
    requires var next := VdwForces(sqrt, radii, NextPositions(sqrt, radii, dt, s));
             |radii| == 0 || ColumnsNonZero(RawVelocities(s.velocities, s.forces, next, dt))
    ensures var next := VdwForces(sqrt, radii, NextPositions(sqrt, radii, dt, s));
            Step(sqrt, radii, dt, s).velocities
            == UpdateVelocitiesAsWritten(sqrt, s.velocities, s.forces, next, dt)
  {
    var next := VdwForces(sqrt, radii, NextPositions(sqrt, radii, dt, s));
    UpdateVelocitiesAgree(sqrt, s.velocities, s.forces, next, dt);
  }

  // ---------------------------------------------------------------------------
  // The source's own loop

  /** The velocities of a pass after the kick and before the normalisation. */
  function Kicked(sqrt: real -> real, radii: seq<real>, dt: real, s: State): (k: seq<Vec2>)
    requires IsSqrt(sqrt) && Valid(sqrt, radii, s) && StepDefined(sqrt, radii, dt, s)
    ensures |k| == |radii|
  {
    RawVelocities(s.velocities, s.forces, VdwForces(sqrt, radii, NextPositions(sqrt, radii, dt, s)), dt)
  }

  /** A pass of the source can be taken from `s`: the new positions are
      pairwise distinct and, with at least one bubble, both columns of the
      kicked velocities have a non-zero entry, so the division by the column
      norms is defined. */
  predicate SourceReady(sqrt: real -> real, radii: seq<real>, dt: real, s: State)
    requires IsSqrt(sqrt)
  {
    && Ready(sqrt, radii, dt, s)
    && (|radii| == 0 || ColumnsNonZero(Kicked(sqrt, radii, dt, s)))
  }

  /** One pass of the loop body exactly as the source writes it, with the
      unguarded division. Where it is defined it is the model's pass. */
  function SourceStep(sqrt: real -> real, radii: seq<real>, dt: real, s: State): (t: State)
    requires IsSqrt(sqrt) && SourceReady(sqrt, radii, dt, s)
    ensures Valid(sqrt, radii, t)
    ensures t == Step(sqrt, radii, dt, s)
  {
    var positions := NextPositions(sqrt, radii, dt, s);
    var forces := VdwForces(sqrt, radii, positions);
    StepAgreesWithSource(sqrt, radii, dt, s);
    State(positions, UpdateVelocitiesAsWritten(sqrt, s.velocities, s.forces, forces, dt), forces)
  }

  /** The source's loop body as a total map on states. */
  function SourceNext(sqrt: real -> real, radii: seq<real>, dt: real): State -> State
    requires IsSqrt(sqrt)
  {
    s => if SourceReady(sqrt, radii, dt, s) then SourceStep(sqrt, radii, dt, s) else s
  }

  /** The state after `n` passes of the source's loop body. */
  function SourceRun(sqrt: real -> real, radii: seq<real>, dt: real, s: State, n: nat): State
    requires IsSqrt(sqrt)
  {
    Iterate(SourceNext(sqrt, radii, dt), s, n)
  }

  /** Every one of the next `n` passes of the source is defined: no two
      bubbles meet and no kicked velocity column is all zero. */
  predicate SourceRunDefined(sqrt: real -> real, radii: seq<real>, dt: real, s: State, n: nat)
    requires IsSqrt(sqrt)
  {
    Along((x: State) => SourceReady(sqrt, radii, dt, x), SourceNext(sqrt, radii, dt), s, n)
  }

  /** Wherever the source's run is defined, so is the model's, and the two
      reach the same state: the guard only changes what happens where the
      source divides 0 by 0. */
  lemma {:induction false} SourceRunAgrees(sqrt: real -> real, radii: seq<real>, dt: real, s: State, n: nat)
    requires IsSqrt(sqrt) && SourceRunDefined(sqrt, radii, dt, s, n)
    ensures RunDefined(sqrt, radii, dt, s, n)
    ensures SourceRun(sqrt, radii, dt, s, n) == Run(sqrt, radii, dt, s, n)
    decreases n
  {
    if n > 0 {
      assert SourceReady(sqrt, radii, dt, s);
      var t := SourceStep(sqrt, radii, dt, s);
      assert SourceNext(sqrt, radii, dt)(s) == t;
      assert Next(sqrt, radii, dt)(s) == t;
      SourceRunAgrees(sqrt, radii, dt, t, n - 1);
    }
  }

  /** `SourceRunAgrees` for the positions, as an implication. */
  lemma SourceAgreesWhereDefined(sqrt: real -> real, radii: seq<real>, dt: real, s: State, n: nat)
    requires IsSqrt(sqrt)
    ensures SourceRunDefined(sqrt, radii, dt, s, n) ==>
            SourceRun(sqrt, radii, dt, s, n).positions == Run(sqrt, radii, dt, s, n).positions
  {
    if SourceRunDefined(sqrt, radii, dt, s, n) {
      SourceRunAgrees(sqrt, radii, dt, s, n);
    }
  }

  // ---------------------------------------------------------------------------
  // Bubbles on one line

  /** A valid state whose bubbles lie on one line, with no velocity across
      it: the pass keeps them on the line, and the kicked velocities have an
      all-zero column across it. */
  lemma LineKick(sqrt: real -> real, radii: seq<real>, dt: real, s: State, a: Axis)
    requires IsSqrt(sqrt) && Valid(sqrt, radii, s) && StepDefined(sqrt, radii, dt, s)
    requires OnLine(s.positions, a) && ZeroColumn(s.velocities, a)
    ensures OnLine(NextPositions(sqrt, radii, dt, s), a)
    ensures ZeroColumn(Kicked(sqrt, radii, dt, s), a)
  {
    var p := NextPositions(sqrt, radii, dt, s);
    ForcesAlongLine(sqrt, radii, s.positions, a);
    UpdatePositionsAlongLine(s.positions, s.velocities, s.forces, dt, a);
    assert OnLine(p, a);
    ForcesAlongLine(sqrt, radii, p, a);
    KickAlongLine(s.velocities, s.forces, VdwForces(sqrt, radii, p), dt, a);
  }

  /** Bubbles that start on one line meet the source's 0/0 at the first
      pass: no force acts across the line, so the kicked velocities have an
      all-zero column there, and no run of the source is defined. */
  lemma LineStartSourceUndefined(sqrt: real -> real, radii: seq<real>, dt: real, centres: seq<Vec2>, a: Axis, n: nat)
    requires IsSqrt(sqrt) && Admissible(radii, centres) && |radii| > 0 && OnLine(centres, a)
    requires StepDefined(sqrt, radii, dt, Initial(sqrt, radii, centres)) && n > 0
    ensures !ColumnsNonZero(Kicked(sqrt, radii, dt, Initial(sqrt, radii, centres)))
    ensures !SourceRunDefined(sqrt, radii, dt, Initial(sqrt, radii, centres), n)
  {
    var s := Initial(sqrt, radii, centres);
    assert ZeroColumn(s.velocities, a);
    LineKick(sqrt, radii, dt, s, a);
    ZeroColumnUndefined(Kicked(sqrt, radii, dt, s), a);
  }

  /** With the guarded update, bubbles on one line with no velocity across it
      stay so after a pass. */
  lemma LineStepStaysOnLine(sqrt: real -> real, radii: seq<real>, dt: real, s: State, a: Axis)
    requires IsSqrt(sqrt) && Valid(sqrt, radii, s) && StepDefined(sqrt, radii, dt, s)
    requires OnLine(s.positions, a) && ZeroColumn(s.velocities, a)
    ensures OnLine(Step(sqrt, radii, dt, s).positions, a)
    ensures ZeroColumn(Step(sqrt, radii, dt, s).velocities, a)
  {
    LineKick(sqrt, radii, dt, s, a);
    NormaliseKeepsZeroColumn(sqrt, Kicked(sqrt, radii, dt, s), a);
  }

  /** Bubbles on one line, with no velocity across it. */
  predicate LineState(sqrt: real -> real, radii: seq<real>, a: Axis, s: State)
    requires IsSqrt(sqrt)
  {
    Valid(sqrt, radii, s) && OnLine(s.positions, a) && ZeroColumn(s.velocities, a)
  }

  /** Under the guarded update, bubbles that start at rest on one line stay
      on it for any number of passes, where the source computes NaN. */
  lemma LineRunStaysOnLine(sqrt: real -> real, radii: seq<real>, dt: real, centres: seq<Vec2>, a: Axis, n: nat)
    requires IsSqrt(sqrt) && Admissible(radii, centres) && OnLine(centres, a)
    ensures OnLine(Run(sqrt, radii, dt, Initial(sqrt, radii, centres), n).positions, a)
  {
    var s := Initial(sqrt, radii, centres);
    var inv := (x: State) => LineState(sqrt, radii, a, x);
    assert ZeroColumn(s.velocities, a);
    assert inv(s);
    forall x | inv(x)
      ensures inv(Next(sqrt, radii, dt)(x))
    {
      if Ready(sqrt, radii, dt, x) {
        LineStepStaysOnLine(sqrt, radii, dt, x, a);
        assert Next(sqrt, radii, dt)(x) == Step(sqrt, radii, dt, x);
      }
    }
    Invariant(inv, Next(sqrt, radii, dt), s, n);
  }

  // ---------------------------------------------------------------------------
  // get_centres

  /** The spawned grid is an admissible start: distinct centres, one per
      radius, whenever the largest radius is non-zero. */
  lemma SpawnAdmissible(radii: seq<real>, shuffled: seq<nat>)
    requires IsShuffle(GridSide(|radii|), shuffled)
    requires |radii| <= 1 || Max(radii) != 0.0
    ensures Admissible(radii, SpawnBubbles(radii, shuffled))
  {
    var centres := SpawnBubbles(radii, shuffled);
    forall i, j | 0 <= i < |centres| && 0 <= j < |centres| && i != j
      ensures centres[i] != centres[j]
    {
      SpawnDistinct(radii, shuffled, i, j);
    }
  }

  /** Two bubbles spawned from the first two candidates share the first grid
      row, so the source's relaxation meets 0/0 at its first pass whenever
      that pass is defined at all. */
  lemma TwoBubblesOnRowSourceUndefined(sqrt: real -> real, radii: seq<real>, shuffled: seq<nat>, n: nat)
    requires IsSqrt(sqrt) && |radii| == 2 && IsShuffle(GridSide(|radii|), shuffled)
    requires shuffled[0] < 2 && shuffled[1] < 2
    requires Admissible(radii, SpawnBubbles(radii, shuffled))
    requires StepDefined(sqrt, radii, TimeStep, Initial(sqrt, radii, SpawnBubbles(radii, shuffled))) && n > 0
    ensures !SourceRunDefined(sqrt, radii, TimeStep, Initial(sqrt, radii, SpawnBubbles(radii, shuffled)), n)
  {
    TwoBubblesOnFirstRow(radii, shuffled);
    LineStartSourceUndefined(sqrt, radii, TimeStep, SpawnBubbles(radii, shuffled), X, n);
  }

  /** `get_centres` as written: it spawns and relaxes the bubbles but has no
      `return` statement, so the caller always receives `None`. */
  method GetCentresAsWritten(sqrt: real -> real, radii: seq<real>, shuffled: seq<nat>, n: nat)
    returns (r: Option<seq<Vec2>>)
    requires IsSqrt(sqrt) && IsShuffle(GridSide(|radii|), shuffled)
    requires Admissible(radii, SpawnBubbles(radii, shuffled))
    requires RunDefined(sqrt, radii, TimeStep, Initial(sqrt, radii, SpawnBubbles(radii, shuffled)), n)
    ensures r == None
  {
    var initialCentres := SpawnBubbles(radii, shuffled);
    var finalCentres, _ := OptimisePositions(sqrt, radii, initialCentres, n, TimeStep, false);
    r := None;
  }

  /** `get_centres` returning the relaxed layout, as its documentation
      promises: one centre per radius, pairwise distinct, the result of
      relaxing the spawned grid for `n` steps (the source runs 5000 of
      them). */
  method GetCentres(sqrt: real -> real, radii: seq<real>, shuffled: seq<nat>, n: nat)
    returns (r: Option<seq<Vec2>>)
    requires IsSqrt(sqrt) && IsShuffle(GridSide(|radii|), shuffled)
    requires Admissible(radii, SpawnBubbles(radii, shuffled))
    requires RunDefined(sqrt, radii, TimeStep, Initial(sqrt, radii, SpawnBubbles(radii, shuffled)), n)
    ensures r.Some?
    ensures Admissible(radii, r.value)
    ensures r.value == Run(sqrt, radii, TimeStep, Initial(sqrt, radii, SpawnBubbles(radii, shuffled)), n).positions
    ensures n == 0 ==> r.value == SpawnBubbles(radii, shuffled)
    ensures SourceRunDefined(sqrt, radii, TimeStep, Initial(sqrt, radii, SpawnBubbles(radii, shuffled)), n) ==>
            r.value == SourceRun(sqrt, radii, TimeStep, Initial(sqrt, radii, SpawnBubbles(radii, shuffled)), n).positions
  {
    var initialCentres := SpawnBubbles(radii, shuffled);
    var finalCentres, _ := OptimisePositions(sqrt, radii, initialCentres, n, TimeStep, false);
    r := Some(finalCentres);
  }
}
