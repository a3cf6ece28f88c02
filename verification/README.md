# bubbleplot layout engine in Dafny

This project models the layout engine of bubbleplot, `bubbleplot/positions.py`.
Given the radii of N bubbles, the engine computes their centres in three parts:

- **The grid spawner**, `spawn_bubbles`. It puts every bubble on its own cell
  of a square grid whose pitch is the largest diameter.
- **The soft pair force**, `get_vdw_force_magnitude` and `get_vdw_forces`.
  Two bubbles pull each other with magnitude `2 * (d - a) * d`, where `a` is
  `r1 + r2 + 1`. The force acts along the line between them: it attracts
  beyond `a` and repels inside it.
- **The relaxation loop**, `optimise_positions`. It is a fixed number of
  velocity-Verlet steps with time step 0.01:
  - `update_positions` moves every bubble by `v * dt + 0.5 * f * dt^2`;
  - the forces are recomputed at the new positions;
  - `update_velocities` kicks the velocities by the average of the old and new
    forces, then divides each velocity column by its norm over all bubbles.

`get_centres` spawns the grid and relaxes it.

## Modules

- `Vectors` (`vectors.dfy`): `Vec2` over `real`, row sums, column sums of
  squares, and the Euclidean norm. The norm is built on a square-root function
  passed as a parameter and constrained by `IsSqrt`.
- `Spawn` (`spawn.dfy`): `spawn_bubbles` with the shuffled candidate indices
  as an input. It carries the non-overlap guarantee and the grid bounds.
- `Forces` (`forces.dfy`): the magnitude and the pair force, and the
  double loop of `get_vdw_forces`. The loop result is proved equal to a
  reference "net force on each bubble" and to sum to zero.
- `Integrator` (`integrator.dfy`): `update_positions` and `update_velocities`.
  The latter comes in two forms. One is as written, with the division's
  requirement as a precondition. The other is guarded: an all-zero column
  stays zero.
- `Iteration` (`iteration.dfy`): repeating a step function `n` times, with the
  facts about splitting runs, invariants and fixed points proved once.
- `Relaxation` (`relaxation.dfy`): the loop body, runs of it, the recorded
  trajectory, `optimise_positions` as a method with a loop, equilibrium, and
  `get_centres`.

## Notes on the code

- **Single-bubble spawn.** With one bubble the grid has side 1 and the code
  draws from two candidates, `0` and `1`. Candidate `1` is the extra index
  `side^2`, which lies in row 1, one pitch along the first axis. So a single
  bubble lands at the origin or at `(2r, 0)` (`Spawn.SingleBubble`).
- **Zero-column division.** `update_velocities` divides each velocity column
  by its norm unconditionally (`Integrator.UpdateVelocitiesAsWritten`). A
  column that is all zero after the kick gives 0/0. This happens for a single
  bubble, and for bubbles spawned on one grid row or one grid column: no force
  acts across the line, so that velocity column stays zero. See Findings.
  - The model's loop (`Relaxation.Step`, `Relaxation.Run`,
    `Relaxation.OptimisePositions`, `Relaxation.GetCentres`) uses the guarded
    division, which leaves an all-zero column at zero (`Integrator.UpdateVelocities`).
  - The source's own loop is modelled too (`Relaxation.SourceRun`). Wherever
    it is defined, it reaches the same states as the model's loop
    (`Relaxation.SourceRunAgrees`).
- **Return value of `get_centres`.** The docstring promises the centres, but
  the function returns nothing. See Findings.

## Model

| member | source | states |
|---|---|---|
| Spawn.GridSide | bubbleplot/positions.py:33-39 | the grid has at least one point per side, and its `side^2 + 1` candidate indices outnumber the N bubbles, so the first N shuffled ones always exist |
| Spawn.CellOf | bubbleplot/positions.py:45-46 | the column of an index, `idx mod side`, is below `side` |
| Spawn.CellInRange | bubbleplot/positions.py:34-46 | a candidate up to `side^2` has row at most `side`; row `side` is reached only by the extra candidate `side^2`, at column 0 |
| Spawn.CellIndexRoundTrip | bubbleplot/positions.py:45-46 | a cell with column below `side` is recovered from its index `row * side + col` |
| Spawn.CellOfInjective | bubbleplot/positions.py:45-46 | distinct candidate indices fall in distinct cells |
| Spawn.Max | bubbleplot/positions.py:48-49 | `max(radii)` is one of the radii |
| Spawn.MaxIsLargest | bubbleplot/positions.py:48-49 | `max(radii)` bounds every radius and is one of them |
| Spawn.PlaceAll | bubbleplot/positions.py:44-49 | bubble `i` of the loop sits at the grid point of its index's cell |
| Spawn.SpawnBubbles | bubbleplot/positions.py:30-51 | exactly N centres, bubble `i` at `(row * 2R, col * 2R)` of the `i`-th shuffled index; empty for no bubbles |
| Spawn.SpawnOnGrid | bubbleplot/positions.py:44-49 | every spawned cell has row in `0..side` and column in `0..side-1` |
| Spawn.SpawnSeparation | bubbleplot/positions.py:45-49 | two distinct bubbles are at squared distance at least `(2R)^2` |
| Spawn.SpawnNonOverlapping | bubbleplot/positions.py:21-22 | for non-negative radii, two distinct spawned bubbles are at least `r_i + r_j` apart: no overlap |
| Spawn.SpawnDistinct | bubbleplot/positions.py:44-49 | with a non-zero largest radius, distinct bubbles get distinct centres |
| Spawn.SpawnOnLine | bubbleplot/positions.py:44-49 | bubbles whose cells all share a row, or all share a column, are spawned with equal first, or second, coordinates |
| Spawn.TwoBubblesOnFirstRow | bubbleplot/positions.py:33-49 | two bubbles drawn from the candidates `0` and `1` both get first coordinate 0, so they share their first coordinate |
| Spawn.SingleBubble | bubbleplot/positions.py:33-49 | a single bubble lands at the origin or at `(2r, 0)`, and nowhere else |
| Vectors.Norm | bubbleplot/positions.py:126 | the norm is non-negative, squares to `x^2 + y^2`, and is positive exactly off the origin |
| Vectors.NormNeg | bubbleplot/positions.py:125-126 | a vector and its opposite have the same length |
| Vectors.Zeros | bubbleplot/positions.py:104 | `np.zeros((n, 2))`: `n` rows, each the zero vector |
| Vectors.SumZeros | bubbleplot/positions.py:104 | the rows of `np.zeros` sum to zero |
| Vectors.SumUpdate | bubbleplot/positions.py:110-111 | an in-place `+=` on one row changes the total by exactly that row's change |
| Forces.ForceMagnitude | bubbleplot/positions.py:115-133 | the magnitude is zero exactly at `dist = r1 + r2 + 1` or for coincident centres; it is positive exactly beyond that separation and negative exactly between distinct centres closer than it |
| Forces.ForceMagnitudeSymmetric | bubbleplot/positions.py:125-131 | swapping the two bubbles leaves the magnitude unchanged |
| Forces.Unit | bubbleplot/positions.py:108 | `dist_vec` has length one and scales back, by the distance, to the difference of the centres |
| Forces.UnitAntisymmetric | bubbleplot/positions.py:108 | the unit vector from `j` to `i` is the opposite of that from `i` to `j` |
| Forces.PairForce | bubbleplot/positions.py:108-110 | the force on a bubble from a partner at a different point, `dist_vec * m`; it has no contract of its own, and its length and direction are stated by `PairForceDirection` |
| Forces.PairForceDirection | bubbleplot/positions.py:108-110 | the pair force is as long as the absolute value of `m`, and its component towards the partner is `m` times the distance: it attracts when `m > 0` and repels when `m < 0` |
| Forces.PairForceAntisymmetric | bubbleplot/positions.py:110-111 | the force on `j` from `i` is the opposite of the force on `i` from `j` |
| Forces.AddPair | bubbleplot/positions.py:110-111 | one inner-loop body updates rows `i` and `j` only, by opposite pair forces, and keeps the total |
| Forces.InnerLoop | bubbleplot/positions.py:107-111 | the inner loop keeps the length and the total of the force array |
| Forces.OuterLoop | bubbleplot/positions.py:106-111 | the outer loop keeps the length and the total of the force array |
| Forces.VdwForces | bubbleplot/positions.py:103-113 | `get_vdw_forces` returns one force per bubble |
| Forces.VdwForcesBalanced | bubbleplot/positions.py:104-111 | the N forces sum to the zero vector |
| Forces.LoneBubbleFeelsNoForce | bubbleplot/positions.py:104-106 | with at most one bubble every force is zero |
| Forces.AddPairProgress | bubbleplot/positions.py:110-111 | after pair `(i, j)` every row holds the pair forces of the pairs visited so far |
| Forces.InnerLoopProgress | bubbleplot/positions.py:107-111 | after row `i` of the double loop, every row holds the forces of all pairs up to row `i` |
| Forces.NextRow | bubbleplot/positions.py:106-107 | the state after row `i` is the state before row `i + 1` |
| Forces.OuterLoopNet | bubbleplot/positions.py:106-111 | from any row on, the double loop ends with each bubble's net force |
| Forces.VdwForcesAreNetForces | bubbleplot/positions.py:103-113 | force `k` equals the sum over every other bubble `j` of the pair force on `k` from `j` |
| Forces.PairForceAlongLine | bubbleplot/positions.py:108-110 | two distinct centres with equal coordinates along an axis exert a pair force with zero component along that axis |
| Forces.RowSumAlongLine | bubbleplot/positions.py:106-111 | on bubbles with equal coordinates along an axis, any partial sum of pair forces on one bubble has zero component along that axis |
| Forces.ForcesAlongLine | bubbleplot/positions.py:103-113 | bubbles on one line feel no force across it: that column of `get_vdw_forces` is all zero |
| Integrator.UpdatePositions | bubbleplot/positions.py:149-150 | one new position per bubble, row `i` being `p + v * dt + 0.5 * f * dt^2` |
| Integrator.AtRest | bubbleplot/positions.py:149 | with zero velocities and zero forces the positions are unchanged |
| Integrator.UpdatePositionsSum | bubbleplot/positions.py:149 | the summed position moves by `dt` times the summed velocity plus `dt^2 / 2` times the summed force |
| Integrator.CentroidDrift | bubbleplot/positions.py:149 | with balanced forces the summed position moves by `dt` times the summed velocity alone |
| Integrator.UpdatePositionsAlongLine | bubbleplot/positions.py:149 | with a zero velocity and force column along an axis, every position keeps its coordinate along that axis |
| Integrator.RawVelocities | bubbleplot/positions.py:167 | one kicked velocity per bubble, row `i` being `v + (f + f') * 0.5 * dt` |
| Integrator.RawVelocitiesSum | bubbleplot/positions.py:167 | the kick changes the summed velocity by `0.5 * dt` times the two summed forces |
| Integrator.KickBalanced | bubbleplot/positions.py:167 | with balanced old and new forces the kick leaves the summed velocity unchanged |
| Integrator.KickAtRest | bubbleplot/positions.py:167 | with zero velocities and zero forces before and after, the kicked velocities are zero |
| Integrator.NormX | bubbleplot/positions.py:168 | the norm of the x column is non-negative, squares to the column's sum of squares, and is positive exactly when some entry is non-zero |
| Integrator.NormY | bubbleplot/positions.py:168 | the same for the y column |
| Integrator.Divide | bubbleplot/positions.py:168 | the column-wise division divides entry `i` by the column's divisor |
| Integrator.DivideSumSqX | bubbleplot/positions.py:168 | dividing the x column by `n` divides its sum of squares by `n^2` |
| Integrator.DivideSumSqY | bubbleplot/positions.py:168 | dividing the y column by `n` divides its sum of squares by `n^2` |
| Integrator.UnitAfterDivideX | bubbleplot/positions.py:168 | dividing the x column by its norm gives it unit length |
| Integrator.UnitAfterDivideY | bubbleplot/positions.py:168 | dividing the y column by its norm gives it unit length |
| Integrator.DivideSigns | bubbleplot/positions.py:168 | the division keeps the sign of every entry |
| Integrator.KickAlongLine | bubbleplot/positions.py:167 | a velocity column that is zero, with zero old and new forces in that column, is still all zero after the kick |
| Integrator.UpdateVelocitiesAsWritten | bubbleplot/positions.py:167-168 | where the division is defined, one velocity per bubble; each column is the kicked column divided by one positive factor and has unit length; every entry has the sign of its kicked velocity |
| Integrator.Divisor | bubbleplot/positions.py:168 | the guarded divisor is positive and is the norm whenever the norm is positive |
| Integrator.NormaliseColumns | bubbleplot/positions.py:168 | each column comes out of the guarded division divided by one positive factor, and a column with a non-zero entry comes out with unit length |
| Integrator.GuardedUnit | bubbleplot/positions.py:168 | a column of positive norm has unit length after the guarded division |
| Integrator.NormaliseColumnsSigns | bubbleplot/positions.py:168 | the guarded division keeps every entry's sign, so an all-zero column stays zero |
| Integrator.NormaliseColumnsShape | bubbleplot/positions.py:168 | after the guarded division every column is of unit length or all zero |
| Integrator.DivideByOne | bubbleplot/positions.py:168 | dividing both columns by one changes nothing |
| Integrator.UnitNorm | bubbleplot/positions.py:168 | a column of unit length or all zero has guarded divisor one |
| Integrator.NormaliseColumnsIdempotent | bubbleplot/positions.py:168 | normalising already normalised velocities changes nothing |
| Integrator.NormaliseZeros | bubbleplot/positions.py:168 | all-zero velocities stay zero under the guarded division |
| Integrator.UpdateVelocities | bubbleplot/positions.py:167-168 | the guarded update gives one velocity per bubble; each column is the kicked column divided by one positive factor, and is of unit length or all zero |
| Integrator.UnitScalingUnique | bubbleplot/positions.py:168 | the only column-wise positive scaling of the kicked velocities that gives both columns unit length is the division by the two column norms |
| Integrator.ZeroColumnUndefined | bubbleplot/positions.py:168 | an all-zero column among one or more velocities makes the source's division undefined |
| Integrator.NormaliseKeepsZeroColumn | bubbleplot/positions.py:168 | the guarded division keeps an all-zero column all zero |
| Integrator.UpdateVelocitiesAtRest | bubbleplot/positions.py:167-168 | bubbles at rest with no force before or after keep zero velocities |
| Integrator.UpdateVelocitiesAgree | bubbleplot/positions.py:167-168 | wherever the source's division is defined, the guarded update equals the update as written |
| Iteration.IterateSplit | bubbleplot/positions.py:79-89 | `a + b` passes of a loop body are `a` passes followed by `b` more |
| Iteration.IterateLast | bubbleplot/positions.py:79-89 | pass `n + 1` is applied to the state after `n` passes |
| Iteration.AlongEvery | bubbleplot/positions.py:79-89 | a condition holds along a run exactly when it holds after each of its first `n` step counts |
| Iteration.AlongSplit | bubbleplot/positions.py:79-89 | a condition holds along `a + b` passes exactly when it holds along the first `a` and along the `b` that follow |
| Iteration.FixedPoint | bubbleplot/positions.py:79-89 | a state the body leaves unchanged stays put for any number of passes |
| Iteration.Invariant | bubbleplot/positions.py:79-89 | a property every pass preserves holds after any number of passes |
| Relaxation.Initial | bubbleplot/positions.py:69-75 | the loop starts at the given centres, at rest, with the forces of those centres |
| Relaxation.NextPositions | bubbleplot/positions.py:80 | the new positions give one row per bubble |
| Relaxation.Step | bubbleplot/positions.py:80-86 | one pass of the loop body yields a state whose forces are those of its positions |
| Relaxation.StepMovesCentroid | bubbleplot/positions.py:80-81 | one pass moves the summed position by `dt` times the summed velocity: the pair forces cancel |
| Relaxation.NextKeepsValid | bubbleplot/positions.py:80-86 | the loop body keeps forces consistent with positions |
| Relaxation.Run | bubbleplot/positions.py:79-89 | the guarded loop: `n` passes of the loop body where a pass can be taken; it has no contract of its own, and `RunValid`, `RunStep` and `RunSplit` state what it reaches |
| Relaxation.RunValid | bubbleplot/positions.py:79-86 | every state the loop reaches keeps its forces consistent with its positions |
| Relaxation.RunDefinedEvery | bubbleplot/positions.py:79-86 | all `n` passes are defined exactly when a pass can be taken after each of the first `n` step counts |
| Relaxation.RunStep | bubbleplot/positions.py:79-86 | within a defined run, pass `k + 1` is the loop body applied to the state after `k` passes |
| Relaxation.RunSplit | bubbleplot/positions.py:79-86 | `a + b` passes are `a` passes then `b` more; they are all defined exactly when both parts are |
| Relaxation.RunVelocitiesNormalised | bubbleplot/positions.py:82 | after at least one pass of the guarded loop every velocity column is of unit length or all zero |
| Relaxation.Trajectory | bubbleplot/positions.py:76-89 | the recorded trajectory has `n + 1` entries, entry `k` being the positions after `k` passes |
| Relaxation.Pass | bubbleplot/positions.py:80-86 | one pass of the loop body, from the state after `i` passes of a defined run, gives the state after `i + 1` passes; that state's forces are the pair forces of its positions, and each velocity column has unit length or is all zero |
| Relaxation.OptimisePositions | bubbleplot/positions.py:53-94 | the result is the positions after `n` passes from rest at the given centres, and wherever the source's own run is defined it is that run's result; the trajectory, when requested, has `n + 1` entries from the given centres to the result. Pairwise distinct positions after every pass are the precondition, not a conclusion |
| Relaxation.KickConservesMomentum | bubbleplot/positions.py:81-82 | the kick of a pass leaves the summed velocity unchanged |
| Relaxation.EquilibriumIsFixedPoint | bubbleplot/positions.py:80-86 | a state at rest with no force is left unchanged by a pass |
| Relaxation.EquilibriumPersists | bubbleplot/positions.py:79-89 | from rest with no force every run is defined and changes nothing |
| Relaxation.SingleBubbleStaysPut | bubbleplot/positions.py:69-89 | a single bubble never moves under the guarded update |
| Relaxation.EquilibriumBreaksSourceNormalisation | bubbleplot/positions.py:167-168 | from rest with no force and at least one bubble, the source's division meets an all-zero column |
| Relaxation.OneBubbleFirstStepUndefined | bubbleplot/positions.py:69-82 | a single bubble meets that all-zero column at the very first pass |
| Relaxation.StepAgreesWithSource | bubbleplot/positions.py:82 | where the source's division is defined, a pass computes the source's velocities |
| Relaxation.Kicked | bubbleplot/positions.py:80-82 | the kicked velocities of a pass have one row per bubble |
| Relaxation.SourceStep | bubbleplot/positions.py:80-86 | a pass with the source's unguarded division, where defined, keeps forces consistent with positions and equals the model's pass |
| Relaxation.SourceNext | bubbleplot/positions.py:80-86 | the source's loop body, with the unguarded division of bubbleplot/positions.py:167-168, where a pass of it is defined; it has no contract of its own |
| Relaxation.SourceRun | bubbleplot/positions.py:79-89 | `n` passes of `SourceNext`, the loop as the source writes it; it has no contract of its own, and `SourceRunAgrees` relates it to `Run` |
| Relaxation.SourceRunAgrees | bubbleplot/positions.py:79-89 | wherever all `n` passes of the source are defined, the model's run is defined too and reaches the same state |
| Relaxation.SourceAgreesWhereDefined | bubbleplot/positions.py:79-89 | where the source's run is defined, its positions are the model's |
| Relaxation.LineKick | bubbleplot/positions.py:80-82 | bubbles on one line with no velocity across it stay on the line after the position update, and the kick leaves that velocity column all zero |
| Relaxation.LineStartSourceUndefined | bubbleplot/positions.py:69-82 | bubbles that start at rest on one line meet an all-zero kicked column at the first pass, so no run of the source is defined |
| Relaxation.LineStepStaysOnLine | bubbleplot/positions.py:80-86 | under the guarded update, a pass keeps bubbles on one line with no velocity across it |
| Relaxation.LineRunStaysOnLine | bubbleplot/positions.py:69-89 | under the guarded update, bubbles that start at rest on one line stay on it for any number of passes |
| Relaxation.SpawnAdmissible | bubbleplot/positions.py:14 | the spawned grid is a valid start: one centre per radius, pairwise distinct when the largest radius is non-zero |
| Relaxation.GetCentresAsWritten | bubbleplot/positions.py:3-17 | `get_centres` as written returns nothing |
| Relaxation.TwoBubblesOnRowSourceUndefined | bubbleplot/positions.py:3-17 | two bubbles spawned from the candidates `0` and `1` share the first grid row, so the source's relaxation is undefined from its first pass |
| Relaxation.GetCentres | bubbleplot/positions.py:3-17 | `get_centres` with its promised return always returns centres: the positions of the spawned grid after `n` passes of the run, or the grid itself for `n = 0`, and those of the source's own run wherever that run is defined. Pairwise distinct centres are part of what the precondition requires, not a conclusion |

## Left out

- Randomness: `np.random.shuffle` (bubbleplot/positions.py:38) is replaced by
  an input, `shuffled`. It is any arrangement of the candidates `0 .. side^2`,
  and every property holds for all of them.
- Floating point: all arithmetic is exact over `real`. Rounding, overflow and
  the order of floating-point operations are not modelled.
- The square root is a parameter `sqrt` constrained by `IsSqrt`. No concrete
  square root is defined.
- NaN is not modelled. The source divides by zero in two places:
  - for coincident centres (bubbleplot/positions.py:108), which the model
    excludes by requiring pairwise distinct centres (`Admissible`);
  - for an all-zero velocity column (bubbleplot/positions.py:168), where the
    as-written update requires both columns non-zero.
- Relaxation.OptimisePositions: uses the guarded velocity normalisation, so
  it differs from the source wherever a kicked velocity column is all zero.
  This includes one bubble and bubbles spawned on one grid row or column. The
  source computes NaN there. Its result equals the source's wherever the
  source's run is defined (`SourceRunDefined`). It also requires the run to
  be defined, that is, no two bubbles ever land on the same point; the source
  computes NaN there instead of failing.
- Relaxation.RunVelocitiesNormalised: holds for the guarded loop only. In the
  source an all-zero column becomes NaN rather than staying zero.
- Relaxation.EquilibriumIsFixedPoint: holds for the guarded loop only. From
  rest with no force the source divides 0 by 0
  (`Relaxation.EquilibriumBreaksSourceNormalisation`).
- Relaxation.EquilibriumPersists: holds for the guarded loop only, for the
  same reason.
- Relaxation.GetCentresAsWritten: requires distinct spawned centres and a
  defined run, for the same reason, although the source returns nothing in
  every case.
- Relaxation.GetCentres: has the same requirements as `OptimisePositions`
  and uses the same guarded loop. It differs from the source wherever a kicked
  velocity column is all zero, and agrees wherever the source's run is defined.
- Relaxation.Run: total. Where a pass cannot be taken it leaves the state
  unchanged from then on, where the source would compute NaN. Most lemmas
  about runs require `RunDefined`. Two do not: `RunValid` and
  `LineRunStaysOnLine`. These two also hold for runs that stop changing at
  such a state.
- Step count: the source fixes it at 5000 (bubbleplot/positions.py:65). The
  model takes it as the parameter `n`.
- Time step and defaults: `optimise_positions` passes the time step 0.01
  (bubbleplot/positions.py:80, 82). The model's `Step`, `Run` and
  `OptimisePositions` take it as the parameter `dt`. `GetCentres` fixes it at
  0.01 (`TimeStep`). The default arguments are not modelled, because every
  member takes its arguments explicitly. These are `time_step=0.001` of
  `update_positions` and `update_velocities` (bubbleplot/positions.py:135,
  152) and `return_traj=False` of `optimise_positions`
  (bubbleplot/positions.py:53). The source's loop always passes 0.01.
- Convergence and packing quality after relaxation are not modelled; the code
  promises neither.
- The harmonic-force, gradient-descent variant of `optimise_positions` and the
  compiled `foptimise_positions` are not part of this model. The example
  scripts call them, but `bubbleplot/positions.py` does not contain them.
- Plotting and animation (`bubbleplot/animation.py` and the example scripts)
  and the build script (`setup.py`) draw or build. They hold no layout logic.

## Findings

| source | as written | input that shows it | evidently intended | confidence | as-written member | corrected member |
|---|---|---|---|---|---|---|
| bubbleplot/positions.py:3-17 | `get_centres` computes `final_centres` but has no `return`, so the caller gets `None` | any radii, for example `(1.0, 2.0)` | return `final_centres`, as the docstring's `:return:` says | high (not executed) | Relaxation.GetCentresAsWritten | Relaxation.GetCentres |
| bubbleplot/positions.py:168 | `update_velocities` divides each velocity column by its norm unconditionally; an all-zero column gives 0/0 | one bubble, `radii = (1.0,)`: it starts at rest and no force acts on it, so the first kick is zero | leave an all-zero column at zero, so that bubbles at rest stay where they are | high (not executed) | Relaxation.OneBubbleFirstStepUndefined | Relaxation.SingleBubbleStaysPut |
| bubbleplot/positions.py:168 | the same unconditional division meets an all-zero column whenever the bubbles start on one grid row or one grid column | two bubbles whose shuffled candidates are `0` and `1`: they spawn at `(0, 0)` and `(0, 2R)`, no force acts along the first axis, so the first velocity column stays zero | leave the all-zero column at zero, so that the bubbles relax along their line | high (not executed) | Relaxation.TwoBubblesOnRowSourceUndefined | Relaxation.LineRunStaysOnLine |
