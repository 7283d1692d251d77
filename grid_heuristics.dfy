/**
 * The pure parts of the heuristic-grid contour tracer: the grid's size and
 * strides, the neighbours a refinement point looks at, and the shortcut that
 * interpolates a point instead of minimising at it.
 */
module GridHeuristics {
  import opened PyBase

  type Cell = (int, int)

  // ---------------------------------------------------------------------------
  // Grid size and strides

  /** Points per axis of the final grid: `1 + initial_points * 2 ** (iterations + 1)`. */
  function GridSide(initialPoints: nat, iterations: nat): int {
    1 + initialPoints * Pow2(iterations + 1)
  }

  /** Points per axis of the coarse grid: `1 + initial_points * 2`. */
  function CoarseSide(initialPoints: nat): int {
    1 + initialPoints * 2
  }

  /** The final grid's side less one factors as `2 * initial_points * 2 ** iterations`. */
  lemma GridSideFactor(initialPoints: nat, iterations: nat)
    ensures GridSide(initialPoints, iterations) - 1 == (2 * initialPoints) * Pow2(iterations)
    ensures GridSide(initialPoints, iterations) - 1 == 2 * (initialPoints * Pow2(iterations))
  {
    var p := Pow2(iterations);
    assert Pow2(iterations + 1) == 2 * p;
    DoubleFactor(initialPoints, p);
  }

  lemma DoubleFactor(a: int, b: int)
    ensures a * (2 * b) == (2 * a) * b == 2 * (a * b)
  {
  }

  lemma OddSuccessor(k: int)
    ensures (1 + 2 * k) % 2 == 1
  {
  }

  /** The coarse stride `(N - 1) / (coarse side - 1)` is exactly `2 ** iterations`,
      and the grid side is odd and at least three. */
  lemma CoarseStride(initialPoints: nat, iterations: nat)
    requires initialPoints >= 1
    ensures (GridSide(initialPoints, iterations) - 1) / (CoarseSide(initialPoints) - 1) == Pow2(iterations)
    ensures GridSide(initialPoints, iterations) >= 3 && GridSide(initialPoints, iterations) % 2 == 1
    ensures Pow2(iterations) <= GridSide(initialPoints, iterations) - 1
  {
    var p := Pow2(iterations);
    var a := 2 * initialPoints;
    var n := GridSide(initialPoints, iterations);
    GridSideFactor(initialPoints, iterations);
    MulDivCancel(a, p);
    MulAtLeast(initialPoints, p);
    MulAtLeast(p, a);
    OddSuccessor(initialPoints * p);
    assert p * a == a * p;
    assert n - 1 >= 2;
  }

  /** The centre index `(N - 1) / 2` is a multiple of the coarse stride, so the
      coarse pass evaluates the cost at the best-fit point. */
  lemma CentreOnCoarseGrid(initialPoints: nat, iterations: nat)
    requires initialPoints >= 1
    ensures var c := (GridSide(initialPoints, iterations) - 1) / 2;
      0 <= c < GridSide(initialPoints, iterations) && c % Pow2(iterations) == 0
  {
    var n := GridSide(initialPoints, iterations);
    assert n - 1 == 2 * (initialPoints * Pow2(iterations));
    assert (n - 1) / 2 == initialPoints * Pow2(iterations);
    MulDivCancel(Pow2(iterations), initialPoints);
    assert Pow2(iterations) * initialPoints == initialPoints * Pow2(iterations);
  }

  // ---------------------------------------------------------------------------
  // Neighbours of a refinement point

  /** The four cells a refinement point looks at, in the order −v1, −v2, +v1, +v2. */
  function Candidates(x0: int, y0: int, v1: Cell, v2: Cell): (cs: seq<Cell>)
    ensures |cs| == 4
    ensures cs[0] == (x0 - v1.0, y0 - v1.1) && cs[2] == (x0 + v1.0, y0 + v1.1)
    ensures cs[1] == (x0 - v2.0, y0 - v2.1) && cs[3] == (x0 + v2.0, y0 + v2.1)
  {
    [(x0 - v1.0, y0 - v1.1), (x0 - v2.0, y0 - v2.1), (x0 + v1.0, y0 + v1.1), (x0 + v2.0, y0 + v2.1)]
  }

  predicate InGrid(c: Cell, sizeX: int, sizeY: int) {
    0 <= c.0 < sizeX && 0 <= c.1 < sizeY
  }

  /** A grid's values, row by row: `g[x][y]` is the value at cell `(x, y)`. */
  type Grid = seq<seq<real>>

  function Cols(g: Grid): nat {
    if |g| == 0 then 0 else |g[0]|
  }

  predicate Rectangular(g: Grid) {
    forall i :: 0 <= i < |g| ==> |g[i]| == Cols(g)
  }

  /** The values of a two-dimensional array as a grid value. */
  function Snapshot(grid: array2<real>): (g: Grid)
    reads grid
    ensures |g| == grid.Length0 && Rectangular(g)
    ensures grid.Length0 > 0 ==> Cols(g) == grid.Length1
    ensures forall i, j :: 0 <= i < grid.Length0 && 0 <= j < grid.Length1 ==> g[i][j] == grid[i, j]
  {
    seq(grid.Length0, i requires 0 <= i < grid.Length0 reads grid =>
      seq(grid.Length1, j requires 0 <= j < grid.Length1 reads grid => grid[i, j]))
  }

  /** The grid values at those cells of `cs` that lie inside the grid, in the
      order of `cs`. */
  function ValuesInGrid(g: Grid, cs: seq<Cell>): (r: seq<real>)
    requires Rectangular(g)
    ensures |r| <= |cs|
    ensures forall v :: v in r ==> exists c :: c in cs && InGrid(c, |g|, Cols(g)) && v == g[c.0][c.1]
    ensures (exists k :: 0 <= k < |cs| && InGrid(cs[k], |g|, Cols(g))) ==> |r| > 0
    ensures (forall k :: 0 <= k < |cs| ==> InGrid(cs[k], |g|, Cols(g))) ==>
      |r| == |cs| && forall k :: 0 <= k < |cs| ==> r[k] == g[cs[k].0][cs[k].1]
  {
    if cs == [] then []
    else
      var init, last := cs[..|cs| - 1], cs[|cs| - 1];
      var rest := ValuesInGrid(g, init);
      assert forall k :: 0 <= k < |init| ==> init[k] == cs[k];
      assert forall c :: c in init ==> c in cs;
      if InGrid(last, |g|, Cols(g)) then rest + [g[last.0][last.1]] else rest
  }

  /** One more cell looked at adds its value when it lies inside the grid. */
  lemma ValuesInGridStep(g: Grid, cs: seq<Cell>, i: int)
    requires Rectangular(g) && 0 <= i < |cs|
    ensures ValuesInGrid(g, cs[..i + 1]) ==
      ValuesInGrid(g, cs[..i]) + if InGrid(cs[i], |g|, Cols(g)) then [g[cs[i].0][cs[i].1]] else []
  {
    assert cs[..i + 1][..i] == cs[..i];
  }

  /** `ValuesInGridStep` read off the array. */
  lemma SnapshotValuesStep(grid: array2<real>, cs: seq<Cell>, i: int)
    requires 0 <= i < |cs|
    ensures ValuesInGrid(Snapshot(grid), cs[..i + 1]) == ValuesInGrid(Snapshot(grid), cs[..i])
      + if 0 <= cs[i].0 < grid.Length0 && 0 <= cs[i].1 < grid.Length1 then [grid[cs[i].0, cs[i].1]] else []
  {
    var g := Snapshot(grid);
    ValuesInGridStep(g, cs, i);
    assert grid.Length0 > 0 ==> Cols(g) == grid.Length1;
    assert InGrid(cs[i], |g|, Cols(g)) <==> 0 <= cs[i].0 < grid.Length0 && 0 <= cs[i].1 < grid.Length1;
  }

  /** Only the values at the cells looked at matter: two equally shaped grids
      that agree there give the same values. */
  lemma {:induction false} ValuesInGridLocal(g1: Grid, g2: Grid, cs: seq<Cell>)
    requires Rectangular(g1) && Rectangular(g2) && |g1| == |g2| && Cols(g1) == Cols(g2)
    requires forall c :: c in cs && InGrid(c, |g1|, Cols(g1)) ==> g1[c.0][c.1] == g2[c.0][c.1]
    ensures ValuesInGrid(g1, cs) == ValuesInGrid(g2, cs)
  {
    if cs != [] {
      var init := cs[..|cs| - 1];
      assert forall c :: c in init ==> c in cs;
      ValuesInGridLocal(g1, g2, init);
    }
  }

  /** `_get_adjacent_grid_points`: the grid values at the in-bounds candidates,
      so at most four, at least one when some candidate is inside the grid, and
      all four in order when every candidate is. */
  function AdjacentGridPoints(g: Grid, x0: int, y0: int, v1: Cell, v2: Cell): (r: seq<real>)
    requires Rectangular(g)
    ensures |r| <= 4
    ensures var cs := Candidates(x0, y0, v1, v2);
      (exists k :: 0 <= k < 4 && InGrid(cs[k], |g|, Cols(g))) ==> |r| > 0
    ensures var cs := Candidates(x0, y0, v1, v2);
      forall v :: v in r ==> exists c :: c in cs && InGrid(c, |g|, Cols(g)) && v == g[c.0][c.1]
    ensures var cs := Candidates(x0, y0, v1, v2);
      (forall k :: 0 <= k < 4 ==> InGrid(cs[k], |g|, Cols(g))) ==>
        r == [g[cs[0].0][cs[0].1], g[cs[1].0][cs[1].1], g[cs[2].0][cs[2].1], g[cs[3].0][cs[3].1]]
  {
    ValuesInGrid(g, Candidates(x0, y0, v1, v2))
  }

  /** `_get_adjacent_grid_points` as the source writes it: a loop over the four
      directions that appends each in-bounds value of the array. */
  method GetAdjacentGridPoints(grid: array2<real>, x0: int, y0: int, v1: Cell, v2: Cell)
    returns (points: seq<real>)
    ensures points == AdjacentGridPoints(Snapshot(grid), x0, y0, v1, v2)
  {
    var xSize, ySize := grid.Length0, grid.Length1;
    ghost var cs := Candidates(x0, y0, v1, v2);
    points := [];
    for i := 0 to 4
      invariant points == ValuesInGrid(Snapshot(grid), cs[..i])
    {
      var x, y := x0, y0;
      if i == 0 {
        x, y := x - v1.0, y - v1.1;
      } else if i == 1 {
        x, y := x - v2.0, y - v2.1;
      } else if i == 2 {
        x, y := x + v1.0, y + v1.1;
      } else {
        x, y := x + v2.0, y + v2.1;
      }
      assert (x, y) == cs[i];
      SnapshotValuesStep(grid, cs, i);
      if 0 <= x < xSize && 0 <= y < ySize {
        points := points + [grid[x, y]];
      }
    }
    assert cs[..4] == cs;
  }

  // ---------------------------------------------------------------------------
  // The interpolation shortcut

  function Sum(s: seq<real>): real {
    if s == [] then 0.0 else s[0] + Sum(s[1..])
  }

  function Mean(s: seq<real>): real
    requires |s| > 0
  {
    Sum(s) / (|s| as real)
  }

  function Max(s: seq<real>): (m: real)
    requires |s| > 0
    ensures m in s && forall k :: 0 <= k < |s| ==> s[k] <= m
  {
    if |s| == 1 then s[0]
    else
      var rest := Max(s[1..]);
      if s[0] >= rest then s[0] else rest
  }

  function Min(s: seq<real>): (m: real)
    requires |s| > 0
    ensures m in s && forall k :: 0 <= k < |s| ==> m <= s[k]
  {
    if |s| == 1 then s[0]
    else
      var rest := Min(s[1..]);
      if s[0] <= rest then s[0] else rest
  }

  predicate AllBelow(s: seq<real>, bound: real) {
    forall k :: 0 <= k < |s| ==> s[k] < bound
  }

  predicate AllAbove(s: seq<real>, bound: real) {
    forall k :: 0 <= k < |s| ==> s[k] > bound
  }

  /** `k` copies of `b` added up. */
  function Copies(k: nat, b: real): real {
    if k == 0 then 0.0 else b + Copies(k - 1, b)
  }

  /** Values that all lie below (above) a bound add up to less (more) than as
      many copies of the bound. */
  lemma {:induction false} SumBounds(s: seq<real>, bound: real)
    ensures AllBelow(s, bound) && |s| > 0 ==> Sum(s) < Copies(|s|, bound)
    ensures AllAbove(s, bound) && |s| > 0 ==> Sum(s) > Copies(|s|, bound)
  {
    if |s| > 0 {
      SumBounds(s[1..], bound);
      assert AllBelow(s, bound) ==> AllBelow(s[1..], bound);
      assert AllAbove(s, bound) ==> AllAbove(s[1..], bound);
      assert Sum(s) == s[0] + Sum(s[1..]) && Copies(|s|, bound) == bound + Copies(|s[1..]|, bound);
    }
  }

  lemma {:induction false} CopiesProduct(k: nat, b: real)
    ensures Copies(k, b) == (k as real) * b
  {
    if k > 0 {
      CopiesProduct(k - 1, b);
      OneMoreTimes((k - 1) as real, b);
    }
  }

  lemma OneMoreTimes(n: real, b: real)
    ensures (n + 1.0) * b == b + n * b
  {
  }

  lemma DivideBounds(x: real, n: real, b: real)
    requires n > 0.0
    ensures x < n * b ==> x / n < b
    ensures x > n * b ==> x / n > b
  {
  }

  /** The mean of values that all lie on one side of a bound lies on that side too. */
  lemma MeanSameSide(s: seq<real>, bound: real)
    requires |s| > 0
    ensures AllBelow(s, bound) ==> Mean(s) < bound
    ensures AllAbove(s, bound) ==> Mean(s) > bound
  {
    SumBounds(s, bound);
    CopiesProduct(|s|, bound);
    DivideBounds(Sum(s), |s| as real, bound);
  }

  /** `_heuristic_point_evaluation`: the neighbours' mean when every neighbour lies
      strictly below, or every neighbour strictly above, the contour value; the
      sentinel -1 (evaluate exactly) otherwise. numpy raises on an empty
      neighbour list, so the caller must supply at least one neighbour. */
  function HeuristicPointEvaluation(contourFun: real, g: Grid, x: int, y: int, v1: Cell, v2: Cell): (r: real)
    requires Rectangular(g) && |AdjacentGridPoints(g, x, y, v1, v2)| > 0
    ensures var adj := AdjacentGridPoints(g, x, y, v1, v2);
      if AllBelow(adj, contourFun) || AllAbove(adj, contourFun) then r == Mean(adj) else r == -1.0
    ensures var adj := AdjacentGridPoints(g, x, y, v1, v2);
      (AllBelow(adj, contourFun) ==> r < contourFun) && (AllAbove(adj, contourFun) ==> r > contourFun)
  {
    var adj := AdjacentGridPoints(g, x, y, v1, v2);
    MeanSameSide(adj, contourFun);
    if Max(adj) < contourFun then Mean(adj)
    else if Min(adj) > contourFun then Mean(adj)
    else -1.0
  }

  /** `_heuristic_point_evaluation` as the source computes it, on the live array. */
  method HeuristicValue(contourFun: real, grid: array2<real>, x: int, y: int, v1: Cell, v2: Cell) returns (v: real)
    requires |AdjacentGridPoints(Snapshot(grid), x, y, v1, v2)| > 0
    ensures v == HeuristicPointEvaluation(contourFun, Snapshot(grid), x, y, v1, v2)
  {
    var adjacent := GetAdjacentGridPoints(grid, x, y, v1, v2);
    if Max(adjacent) < contourFun {
      return Mean(adjacent);
    }
    if Min(adjacent) > contourFun {
      return Mean(adjacent);
    }
    return -1.0;
  }

  // ---------------------------------------------------------------------------
  // Refinement passes

  /** One refinement pass: its parity and the strides `_x_step`, `_y_step`.
      Even passes visit the centres of the squares of the previous lattice and
      look at their four corners; odd passes visit the edge midpoints and look
      at the two ends of each edge. */
  datatype Pass = Pass(even: bool, xStep: int, yStep: int)

  /** The strides a pass runs with: on an even pass both are the same even
      number; on an odd pass `_y_step` is twice `_x_step` and fits in the grid. */
  predicate ValidPass(p: Pass, n: int) {
    if p.even then p.xStep == p.yStep && p.xStep >= 2 && p.xStep % 2 == 0
    else p.xStep >= 1 && p.yStep == 2 * p.xStep && p.yStep <= n - 1
  }

  /** `_vector_1` and `_vector_2` (lines 330-338, with Python 2 integer division;
      `-_y_step / 2` is exact because the stride is even). */
  function Vector1(p: Pass): Cell {
    if p.even then (p.xStep / 2, p.yStep / 2) else (p.xStep, 0)
  }

  function Vector2(p: Pass): Cell {
    if p.even then (p.xStep / 2, -(p.yStep / 2)) else (0, p.yStep / 2)
  }

  /** The cells a pass visits: with `h` half the stride, even passes visit the
      cells whose coordinates are both `h` modulo the stride; odd passes visit
      the cells where exactly one coordinate is `_x_step` modulo `_y_step`. */
  predicate PassPoint(p: Pass, c: Cell) {
    p.xStep >= 1 && p.yStep >= 1 &&
    if p.even then c.0 % p.xStep == p.xStep / 2 && c.1 % p.yStep == p.yStep / 2
    else (c.0 % p.yStep == 0 && c.1 % p.yStep == p.xStep) || (c.0 % p.yStep == p.xStep && c.1 % p.yStep == 0)
  }

  /** The four cells put on the unsure list around an evaluated cell (lines 352-361). */
  function NeighbourSet(p: Pass, c: Cell): set<Cell> {
    var (x, y) := c;
    if p.even then {(x - p.xStep, y), (x, y - p.yStep), (x + p.xStep, y), (x, y + p.yStep)}
    else {(x - p.xStep, y - p.yStep / 2), (x - p.xStep, y + p.yStep / 2), (x + p.xStep, y - p.yStep / 2), (x + p.xStep, y + p.yStep / 2)}
  }

  /** A pass never looks at a cell it visits: the four candidates of a visited
      cell lie off the pass's lattice. This is why the order of the visits
      does not matter. */
  lemma CandidatesOffLattice(p: Pass, n: int, c: Cell, k: int)
    requires ValidPass(p, n) && PassPoint(p, c) && 0 <= k < 4
    ensures !PassPoint(p, Candidates(c.0, c.1, Vector1(p), Vector2(p))[k])
  {
    var cs := Candidates(c.0, c.1, Vector1(p), Vector2(p));
    if p.even {
      var h := p.xStep / 2;
      assert 2 * h == p.xStep;
      HalfShift(c.0, h);
      assert cs[k].0 == c.0 - h || cs[k].0 == c.0 + h;
    } else {
      HalfShift(c.0, p.xStep);
      HalfShift(c.1, p.xStep);
      assert cs[k] == (c.0 - p.xStep, c.1) || cs[k] == (c.0 + p.xStep, c.1)
        || cs[k] == (c.0, c.1 - p.xStep) || cs[k] == (c.0, c.1 + p.xStep);
    }
  }

  /** Every cell a pass visits inside an `n` by `n` grid has a candidate inside
      the grid, so the neighbour list is never empty. */
  lemma PassPointHasNeighbour(p: Pass, n: int, c: Cell)
    requires ValidPass(p, n) && PassPoint(p, c) && InGrid(c, n, n)
    ensures exists k :: 0 <= k < 4 && InGrid(Candidates(c.0, c.1, Vector1(p), Vector2(p))[k], n, n)
  {
    var cs := Candidates(c.0, c.1, Vector1(p), Vector2(p));
    if p.even {
      ModAtMost(c.0, p.xStep);
      ModAtMost(c.1, p.yStep);
      assert InGrid(cs[0], n, n);
    } else if c.1 >= p.yStep / 2 {
      assert InGrid(cs[1], n, n);
    } else {
      assert InGrid(cs[3], n, n);
    }
  }

  /** The neighbour shortcut at a visited cell. */
  function PassHeuristic(contourFun: real, g: Grid, p: Pass, c: Cell): real
    requires Rectangular(g) && Cols(g) == |g| && ValidPass(p, |g|) && PassPoint(p, c) && InGrid(c, |g|, |g|)
  {
    PassPointHasNeighbour(p, |g|, c);
    HeuristicPointEvaluation(contourFun, g, c.0, c.1, Vector1(p), Vector2(p))
  }

  /** The shortcut at a visited cell depends only on cells the pass does not
      visit, so it is the same before and after any of the pass's writes. */
  lemma PassHeuristicLocal(contourFun: real, g1: Grid, g2: Grid, p: Pass, c: Cell)
    requires Rectangular(g1) && Cols(g1) == |g1| && ValidPass(p, |g1|) && PassPoint(p, c) && InGrid(c, |g1|, |g1|)
    requires Rectangular(g2) && |g2| == |g1| && Cols(g2) == |g1|
    requires forall i, j :: 0 <= i < |g1| && 0 <= j < |g1| && !PassPoint(p, (i, j)) ==> g1[i][j] == g2[i][j]
    ensures PassHeuristic(contourFun, g1, p, c) == PassHeuristic(contourFun, g2, p, c)
  {
    var cs := Candidates(c.0, c.1, Vector1(p), Vector2(p));
    forall d | d in cs && InGrid(d, |g1|, Cols(g1))
      ensures g1[d.0][d.1] == g2[d.0][d.1]
    {
      var k :| 0 <= k < 4 && cs[k] == d;
      CandidatesOffLattice(p, |g1|, c, k);
    }
    ValuesInGridLocal(g1, g2, cs);
  }

  /** The cells a pass visits in one column share their row residue, and the
      columns it visits share their column residue. */
  lemma PassResidues(p: Pass, n: int, c: Cell, d: Cell)
    requires ValidPass(p, n) && PassPoint(p, c) && PassPoint(p, d)
    ensures c.0 % p.xStep == d.0 % p.xStep
    ensures c.0 == d.0 ==> c.1 % p.yStep == d.1 % p.yStep
  {
    if !p.even {
      HalfResidue(c.0, p.xStep);
      HalfResidue(d.0, p.xStep);
    }
  }
}
