/** The grid spawner: `spawn_bubbles` places the N bubbles on distinct cells
    of a square grid whose pitch is the largest diameter, so that no two
    bubbles overlap before relaxation starts.

    The random permutation the source draws with `np.random.shuffle` is an
    input here: `shuffled` is any arrangement of the candidate indices
    `0 .. side^2`, and every property below holds for all of them. */
module Spawn {
  import opened Vectors

  /** `int(N/2) + 1`, the number of grid points along one side. The
      `side^2 + 1` candidate indices always cover the N bubbles. */
  function GridSide(n: nat): (side: nat)
    ensures side >= 1
    ensures n < CandidateCount(side)
  {
    var d := n / 2;
    assert (d + 1) * (d + 1) == d * d + 2 * d + 1;
    d + 1
  }

  /** `side ** 2`, the number of grid points. */
  function Square(n: nat): nat {
    n * n
  }

  /** The number of candidate indices: `np.linspace(0, side^2, side^2 + 1)`
      yields the integers `0 .. side^2` inclusive. */
  function CandidateCount(side: nat): nat {
    Square(side) + 1
  }

  /** `shuffled` is a rearrangement of the candidates `0 .. side^2`: it has
      one entry per candidate, all below the count (so at most `side^2`) and
      pairwise distinct. */
  predicate IsShuffle(side: nat, shuffled: seq<nat>) {
    && |shuffled| == CandidateCount(side)
    && (forall i :: 0 <= i < |shuffled| ==> shuffled[i] < |shuffled|)
    && (forall i, j :: 0 <= i < j < |shuffled| ==> shuffled[i] != shuffled[j])
  }

  /** A grid cell, by row (first coordinate) and column (second). */
  datatype Cell = Cell(row: nat, col: nat)

  /** The candidate index of a cell, `row * side + col`. */
  function IndexOf(side: nat, c: Cell): nat {
    c.row * side + c.col
  }

  /** The cell of candidate index `idx`: `(int(idx / side), idx % side)`. */
  function CellOf(side: nat, idx: nat): (c: Cell)
    requires side >= 1
    ensures c.col < side
  {
    Cell(idx / side, idx % side)
  }

  /** The cell of an index is the cell whose index it is. */
  lemma CellOfIndex(side: nat, idx: nat)
    requires side >= 1
    ensures IndexOf(side, CellOf(side, idx)) == idx
  {
  }

  lemma MulLeInt(a: int, b: int, c: int)
    requires a <= b && c >= 0
    ensures a * c <= b * c
  {
  }

  /** Candidates up to `side^2` reach at most row `side`, and row `side` only
      at column 0. */
  lemma CellInRange(side: nat, idx: nat)
    requires side >= 1 && idx <= Square(side)
    ensures CellOf(side, idx).row <= side
    ensures CellOf(side, idx).row == side ==> CellOf(side, idx).col == 0 && idx == Square(side)
  {
    var c := CellOf(side, idx);
    CellOfIndex(side, idx);
    RowBound(side, c.row, c.col, idx);
  }

  /** The arithmetic core of `CellInRange`, over plain integers. */
  lemma RowBound(side: nat, row: nat, col: nat, idx: nat)
    requires col < side && idx == row * side + col && idx <= side * side
    ensures row <= side
    ensures row == side ==> col == 0 && idx == side * side
  {
    if row >= side + 1 {
      MulLeInt(side + 1, row, side);
    }
  }

  /** Two ways of writing one index with a column below `side` agree. */
  lemma IndexUnique(side: nat, a: Cell, b: Cell)
    requires a.col < side && b.col < side
    requires IndexOf(side, a) == IndexOf(side, b)
    ensures a == b
  {
    if a.row < b.row {
      MulLeInt(a.row + 1, b.row, side);
    } else if b.row < a.row {
      MulLeInt(b.row + 1, a.row, side);
    }
  }

  /** Every cell with a column below `side` is reached by its own index. */
  lemma CellIndexRoundTrip(side: nat, c: Cell)
    requires side >= 1 && c.col < side
    ensures CellOf(side, IndexOf(side, c)) == c
  {
    CellOfIndex(side, IndexOf(side, c));
    IndexUnique(side, CellOf(side, IndexOf(side, c)), c);
  }

  /** Distinct indices lie in distinct cells. */
  lemma CellOfInjective(side: nat, a: nat, b: nat)
    requires side >= 1 && a != b
    ensures CellOf(side, a) != CellOf(side, b)
  {
    CellOfIndex(side, a);
    CellOfIndex(side, b);
  }

  /** The largest radius, `max(radii)`. */
  function Max(radii: seq<real>): (m: real)
    requires |radii| > 0
    ensures m in radii
  {
    if |radii| == 1 then radii[0]
    else
      var rest := Max(radii[1..]);
      if radii[0] >= rest then radii[0] else rest
  }

  /** `Max` is an upper bound of the radii that one of them attains. */
  lemma {:induction false} MaxIsLargest(radii: seq<real>)
    requires |radii| > 0
    ensures forall i :: 0 <= i < |radii| ==> radii[i] <= Max(radii)
    ensures exists i :: 0 <= i < |radii| && radii[i] == Max(radii)
  {
    if |radii| > 1 {
      MaxIsLargest(radii[1..]);
      assert forall i :: 1 <= i < |radii| ==> radii[i] == radii[1..][i - 1];
      if radii[0] >= Max(radii[1..]) {
        assert radii[0] == Max(radii);
      } else {
        var k :| 0 <= k < |radii| - 1 && radii[1..][k] == Max(radii[1..]);
        assert radii[k + 1] == Max(radii);
      }
    } else {
      assert radii[0] == Max(radii);
    }
  }

  /** The grid pitch, the largest diameter `2 * max(radii)`. */
  function Pitch(radii: seq<real>): real
    requires |radii| > 0
  {
    2.0 * Max(radii)
  }

  /** The point of a cell on a grid of the given pitch. The source multiplies
      `row * 2 * max(radii)` left to right; over exact reals the grouping does
      not matter. */
  function CellCentre(c: Cell, pitch: real): Vec2 {
    Vec2(c.row as real * pitch, c.col as real * pitch)
  }

  /** The loop of `spawn_bubbles`: the point of the cell of every index, in
      order. */
  function PlaceAll(side: nat, pitch: real, indices: seq<nat>): (centres: seq<Vec2>)
    requires side >= 1
    ensures |centres| == |indices|
    ensures forall i {:trigger centres[i]} :: 0 <= i < |indices| ==>
              centres[i] == CellCentre(CellOf(side, indices[i]), pitch)
  {
    if |indices| == 0 then []
    else [CellCentre(CellOf(side, indices[0]), pitch)] + PlaceAll(side, pitch, indices[1..])
  }

  /** `spawn_bubbles` with the shuffle supplied: the first N shuffled indices
      are kept and bubble `i` sits at the cell of the `i`-th. With no bubbles
      `max(radii)` is never evaluated and the result is empty. */
  function SpawnBubbles(radii: seq<real>, shuffled: seq<nat>): (centres: seq<Vec2>)
    requires IsShuffle(GridSide(|radii|), shuffled)
    ensures |centres| == |radii|
    ensures forall i {:trigger centres[i]} :: 0 <= i < |centres| ==>
              centres[i] == CellCentre(CellOf(GridSide(|radii|), shuffled[i]), Pitch(radii))
  {
    var kept := shuffled[..|radii|];
    if |radii| == 0 then []
    else PlaceAll(GridSide(|radii|), Pitch(radii), kept)
  }

  /** Every spawned bubble sits on a grid point: the row is at most `side`
      and the column below `side`, and only the extra candidate `side^2`
      reaches row `side`, at column 0. */
  lemma SpawnOnGrid(radii: seq<real>, shuffled: seq<nat>, i: nat)
    requires IsShuffle(GridSide(|radii|), shuffled)
    requires i < |radii|
    ensures var side := GridSide(|radii|);
            var c := CellOf(side, shuffled[i]);
            && c.row <= side && c.col < side
            && (c.row == side ==> c.col == 0 && shuffled[i] == Square(side))
  {
    CellInRange(GridSide(|radii|), shuffled[i]);
  }

  /** Two different cells are at least one pitch apart: the squared distance
      between their points is at least the squared pitch. */
  lemma CellSeparation(a: Cell, b: Cell, pitch: real)
    requires a != b
    ensures SqDist(CellCentre(a, pitch), CellCentre(b, pitch)) >= Sq(pitch)
  {
    var d := Sub(CellCentre(b, pitch), CellCentre(a, pitch));
    var kx := b.row as real - a.row as real;
    var ky := b.col as real - a.col as real;
    assert d.x == kx * pitch && d.y == ky * pitch;
    if a.row != b.row {
      WholeMultipleSquare(kx, pitch, d.x);
    } else {
      WholeMultipleSquare(ky, pitch, d.y);
    }
  }

  /** A non-zero whole multiple `t` of `s` is at least as long as `s`. */
  lemma WholeMultipleSquare(k: real, s: real, t: real)
    requires k >= 1.0 || k <= -1.0
    requires t == k * s
    ensures Sq(t) >= Sq(s)
  {
    var m := if k >= 1.0 then k else -k;
    assert t * t == (m * m) * (s * s);
    assert 1.0 <= m * m by {
      MulLeRight(1.0, m, m);
    }
    MulLeRight(1.0, m * m, s * s);
  }

  /** The points of two different candidate indices are a pitch apart. */
  lemma IndexSeparation(side: nat, a: nat, b: nat, pitch: real)
    requires side >= 1 && a != b
    ensures SqDist(CellCentre(CellOf(side, a), pitch), CellCentre(CellOf(side, b), pitch)) >= Sq(pitch)
  {
    CellOfInjective(side, a, b);
    CellSeparation(CellOf(side, a), CellOf(side, b), pitch);
  }

  /** Two different bubbles take two different shuffled candidates. */
  lemma KeptDistinct(radii: seq<real>, shuffled: seq<nat>, i: nat, j: nat)
    requires IsShuffle(GridSide(|radii|), shuffled)
    requires i < |radii| && j < |radii| && i != j
    ensures i < |shuffled| && j < |shuffled| && shuffled[i] != shuffled[j]
  {
    if i < j {
      assert shuffled[i] != shuffled[j];
    } else {
      assert shuffled[j] != shuffled[i];
    }
  }

  /** The non-overlap guarantee of the spawner: two distinct bubbles are at
      least one pitch apart, and for non-negative radii the pitch is at least
      the sum of their radii, so the discs do not overlap. */
  lemma SpawnNonOverlapping(sqrt: real -> real, radii: seq<real>, shuffled: seq<nat>, i: nat, j: nat)
    requires IsSqrt(sqrt)
    requires IsShuffle(GridSide(|radii|), shuffled)
    requires forall k :: 0 <= k < |radii| ==> radii[k] >= 0.0
    requires i < |radii| && j < |radii| && i != j
    ensures var centres := SpawnBubbles(radii, shuffled);
            && SqDist(centres[i], centres[j]) >= Sq(Pitch(radii))
            && Norm(sqrt, Sub(centres[j], centres[i])) >= radii[i] + radii[j]
  {
    SpawnSeparation(radii, shuffled, i, j);
    SpawnCellsApart(sqrt, radii, shuffled, i, j);
  }

  /** The non-overlap guarantee, stated for the cells of the two bubbles. */
  lemma SpawnCellsApart(sqrt: real -> real, radii: seq<real>, shuffled: seq<nat>, i: nat, j: nat)
    requires IsSqrt(sqrt)
    requires IsShuffle(GridSide(|radii|), shuffled)
    requires forall k :: 0 <= k < |radii| ==> radii[k] >= 0.0
    requires i < |radii| && j < |radii| && i != j
    ensures var side := GridSide(|radii|);
            Norm(sqrt, Sub(CellCentre(CellOf(side, shuffled[j]), Pitch(radii)),
                           CellCentre(CellOf(side, shuffled[i]), Pitch(radii)))) >= radii[i] + radii[j]
  {
    KeptDistinct(radii, shuffled, i, j);
    MaxIsLargest(radii);
    IndexDiscsApart(sqrt, GridSide(|radii|), shuffled[i], shuffled[j], Pitch(radii), radii[i], radii[j]);
  }

  /** Discs at the points of two different candidate indices do not overlap
      when their radii add up to at most the pitch. */
  lemma IndexDiscsApart(sqrt: real -> real, side: nat, a: nat, b: nat, pitch: real, r1: real, r2: real)
    requires IsSqrt(sqrt)
    requires side >= 1 && a != b
    requires 0.0 <= r1 + r2 <= pitch
    ensures Norm(sqrt, Sub(CellCentre(CellOf(side, b), pitch), CellCentre(CellOf(side, a), pitch))) >= r1 + r2
  {
    IndexSeparation(side, a, b, pitch);
    DiscsApart(sqrt, CellCentre(CellOf(side, a), pitch), CellCentre(CellOf(side, b), pitch), r1, r2, pitch);
  }

  /** Two discs whose centres are a pitch apart do not overlap when their
      radii add up to at most the pitch. */
  lemma DiscsApart(sqrt: real -> real, p: Vec2, q: Vec2, r1: real, r2: real, pitch: real)
    requires IsSqrt(sqrt)
    requires SqDist(p, q) >= Sq(pitch)
    requires 0.0 <= r1 + r2 <= pitch
    ensures Norm(sqrt, Sub(q, p)) >= r1 + r2
  {
    SquareLe(r1 + r2, pitch);
    NormAtLeast(sqrt, Sub(q, p), r1 + r2);
  }

  /** Two distinct spawned bubbles are at least one pitch apart. */
  lemma SpawnSeparation(radii: seq<real>, shuffled: seq<nat>, i: nat, j: nat)
    requires IsShuffle(GridSide(|radii|), shuffled)
    requires i < |radii| && j < |radii| && i != j
    ensures var centres := SpawnBubbles(radii, shuffled);
            SqDist(centres[i], centres[j]) >= Sq(Pitch(radii))
  {
    KeptDistinct(radii, shuffled, i, j);
    IndexSeparation(GridSide(|radii|), shuffled[i], shuffled[j], Pitch(radii));
  }


  /** Spawned bubbles have pairwise distinct centres whenever the largest
      radius is non-zero. */
  lemma SpawnDistinct(radii: seq<real>, shuffled: seq<nat>, i: nat, j: nat)
    requires IsShuffle(GridSide(|radii|), shuffled)
    requires i < |radii| && j < |radii| && i != j
    requires Max(radii) != 0.0
    ensures SpawnBubbles(radii, shuffled)[i] != SpawnBubbles(radii, shuffled)[j]
  {
    KeptDistinct(radii, shuffled, i, j);
    IndexPointsApart(GridSide(|radii|), shuffled[i], shuffled[j], Pitch(radii));
  }

  /** Different candidate indices have different points on a grid of
      non-zero pitch. */
  lemma IndexPointsApart(side: nat, a: nat, b: nat, pitch: real)
    requires side >= 1 && a != b && pitch != 0.0
    ensures CellCentre(CellOf(side, a), pitch) != CellCentre(CellOf(side, b), pitch)
  {
    IndexSeparation(side, a, b, pitch);
    PointsApart(CellCentre(CellOf(side, a), pitch), CellCentre(CellOf(side, b), pitch), pitch);
  }

  /** Points a non-zero distance apart are different points. */
  lemma PointsApart(p: Vec2, q: Vec2, pitch: real)
    requires SqDist(p, q) >= Sq(pitch) && pitch != 0.0
    ensures p != q
  {
    AboveSquarePositive(SqDist(p, q), pitch);
    SqNormPositive(Sub(q, p));
  }

  /** The points of the first two cells of the first column. */
  lemma FirstCells(pitch: real)
    ensures CellCentre(Cell(0, 0), pitch) == Zero
    ensures CellCentre(Cell(1, 0), pitch) == Vec2(pitch, 0.0)
  {
  }

  /** A single bubble lands at the origin or, when the extra candidate index
      `1` comes first, one pitch along the first axis. */
  lemma SingleBubble(radii: seq<real>, shuffled: seq<nat>)
    requires |radii| == 1
    requires IsShuffle(GridSide(|radii|), shuffled)
    ensures shuffled[0] == 0 ==> SpawnBubbles(radii, shuffled) == [Zero]
    ensures shuffled[0] == 1 ==> SpawnBubbles(radii, shuffled) == [Vec2(2.0 * radii[0], 0.0)]
    ensures shuffled[0] == 0 || shuffled[0] == 1
  {
    var p := Pitch(radii);
    assert p == 2.0 * radii[0];
    var centres := SpawnBubbles(radii, shuffled);
    assert |centres| == 1;
    assert centres[0] == CellCentre(CellOf(1, shuffled[0]), p);
    if shuffled[0] == 0 {
      assert CellOf(1, 0) == Cell(0, 0);
      FirstCells(p);
      assert centres == [Zero];
    } else {
      assert CellOf(1, 1) == Cell(1, 0);
      FirstCells(p);
      assert centres == [Vec2(p, 0.0)];
    }
  }

  /** The coordinate of a cell along an axis: its row along the first axis,
      its column along the second. */
  function CellAlong(c: Cell, a: Axis): nat {
    match a
    case X => c.row
    case Y => c.col
  }

  /** Cells with the same coordinate along an axis have points with the same
      coordinate along it. */
  lemma CellCentreAlong(c: Cell, d: Cell, pitch: real, a: Axis)
    requires CellAlong(c, a) == CellAlong(d, a)
    ensures Component(CellCentre(c, pitch), a) == Component(CellCentre(d, pitch), a)
  {
  }

  /** Bubbles whose cells all share a row (or all share a column) are spawned
      on one line. */
  lemma SpawnOnLine(radii: seq<real>, shuffled: seq<nat>, a: Axis)
    requires IsShuffle(GridSide(|radii|), shuffled)
    requires forall i :: 0 <= i < |radii| ==>
               CellAlong(CellOf(GridSide(|radii|), shuffled[i]), a) == CellAlong(CellOf(GridSide(|radii|), shuffled[0]), a)
    ensures OnLine(SpawnBubbles(radii, shuffled), a)
  {
    var centres := SpawnBubbles(radii, shuffled);
    if |centres| > 0 {
      var side := GridSide(|radii|);
      var pitch := Pitch(radii);
      var first := CellOf(side, shuffled[0]);
      forall i | 0 <= i < |centres|
        ensures Component(centres[i], a) == Component(CellCentre(first, pitch), a)
      {
        var cell := CellOf(side, shuffled[i]);
        assert centres[i] == CellCentre(cell, pitch);
        CellCentreAlong(cell, first, pitch, a);
      }
    }
  }

  /** Two bubbles drawn from the first two candidates share the first grid
      row: the spawner puts them at `(0, 0)` and `(0, 2R)`. */
  lemma TwoBubblesOnFirstRow(radii: seq<real>, shuffled: seq<nat>)
    requires |radii| == 2 && IsShuffle(GridSide(|radii|), shuffled)
    requires shuffled[0] < 2 && shuffled[1] < 2
    ensures SpawnBubbles(radii, shuffled)[0].x == 0.0 && SpawnBubbles(radii, shuffled)[1].x == 0.0
    ensures OnLine(SpawnBubbles(radii, shuffled), X)
  {
    assert GridSide(|radii|) == 2;
    assert CellOf(2, shuffled[0]).row == 0;
    assert CellOf(2, shuffled[1]).row == 0;
    SpawnOnLine(radii, shuffled, X);
  }
}
