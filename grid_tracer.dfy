/**
 * The heuristic-grid contour tracer (`_contour_heuristic_grid`), phase by
 * phase: argument handling, the coarse pass, the alternating refinement
 * passes with their worklist of unsure cells, and the cropping of the
 * finished grid. Every cost evaluation is `_calc_fun_with_constraints` with
 * both contour parameters pinned to the cell's coordinates.
 */
module GridTracer {
  import opened PyBase
  import opened Solver
  import opened GridHeuristics

  /** What the tracer's evaluations depend on: the solver inputs, the indices
      of the two parameters, and the coordinate values along each axis. */
  datatype GridSetup = GridSetup(solver: SolverSetup, ids: (nat, nat), xValues: seq<real>, yValues: seq<real>)

  /** The constrained minimum with the two parameters pinned at cell `c`. */
  function CellCost(s: GridSetup, c: Cell): real
    requires 0 <= c.0 < |s.xValues| && 0 <= c.1 < |s.yValues|
  {
    ConstrainedCost(s.solver, PinBoth(s.ids, (s.xValues[c.0], s.yValues[c.1])))
  }

  // ---------------------------------------------------------------------------
  // Arguments

  /** Python's `int(v)`: integers stay, floats are truncated toward zero,
      and a string is parsed as a decimal literal (`ParseInt`). */
  function IntArg(key: string, v: Value): (r: Result<int>)
    ensures v.Int? ==> r == Ok(v.i)
    ensures v.Float? ==> r == Ok(Trunc(v.f))
    ensures v.Text? ==> (r.Ok? <==> IsIntLiteral(Strip(v.s)))
    ensures v.Text? && r.Err? ==> r.error == InvalidLiteral(key)
    ensures v.Text? && r.Ok? ==> r == ParseInt(key, v.s)
  {
    match v
    case Int(i) => Ok(i)
    case Float(f) => Ok(Trunc(f))
    case Text(t) => ParseInt(key, t)
  }

  /** A keyword given as the string of an integer counts as that integer. */
  lemma IntArgOfDecimal(key: string, i: int)
    ensures IntArg(key, Text(Decimal(i))) == Ok(i)
  {
    var t := Decimal(i);
    DecimalShape(i);
    DigitsValueOf(if i < 0 then -i else i);
    assert StripLeft(t) == t && StripRight(t) == t;
  }

  /** A number as a float, for the arithmetic of lines 304-306 and 403. */
  function RealArg(key: string, v: Value): (r: Result<real>)
    ensures r.Ok? <==> !v.Text?
    ensures v.Int? ==> r == Ok(v.i as real)
    ensures v.Float? ==> r == Ok(v.f)
  {
    match v
    case Int(i) => Ok(i as real)
    case Float(f) => Ok(f)
    case Text(_) => Err(NotANumber(key))
  }

  /** Lines 290-291: both conversions, in order. */
  function GridInts(initialPoints: Value, iterations: Value): (r: Result<(int, int)>)
    ensures r.Ok? <==> IntArg("initial_points", initialPoints).Ok? && IntArg("iterations", iterations).Ok?
    ensures IntArg("initial_points", initialPoints).Err? ==> r == Err(InvalidLiteral("initial_points"))
    ensures IntArg("initial_points", initialPoints).Ok? && IntArg("iterations", iterations).Err? ==>
      r == Err(InvalidLiteral("iterations"))
    ensures r.Ok? ==> r.value == (IntArg("initial_points", initialPoints).value, IntArg("iterations", iterations).value)
  {
    var ip :- IntArg("initial_points", initialPoints);
    var it :- IntArg("iterations", iterations);
    Ok((ip, it))
  }

  /** Lines 290-296 as written: the range checks raise by calling the
      minimizer class itself with a single argument, so what reaches the caller
      is a TypeError about the constructor's arity rather than the
      component's own exception. */
  function GridArgumentsAsWritten(initialPoints: Value, iterations: Value): (r: Result<(nat, nat)>)
    ensures var ints := GridInts(initialPoints, iterations);
      (ints.Err? ==> r == Err(ints.error))
      && (ints.Ok? && ints.value.0 >= 1 && ints.value.1 >= 0 ==> r == Ok(ints.value))
      && (ints.Ok? && (ints.value.0 < 1 || ints.value.1 < 0) ==> r == Err(ConstructorArity))
  {
    var (ip, it) :- GridInts(initialPoints, iterations);
    if ip < 1 then Err(ConstructorArity)
    else if it < 0 then Err(ConstructorArity)
    else Ok((ip, it))
  }

  /** Lines 290-296 as evidently intended: the same checks, raising the
      component's own exception with the messages the source gives. */
  function GridArguments(initialPoints: Value, iterations: Value): (r: Result<(nat, nat)>)
    ensures var ints := GridInts(initialPoints, iterations);
      (ints.Err? ==> r == Err(ints.error))
      && (ints.Ok? && ints.value.0 >= 1 && ints.value.1 >= 0 ==> r == Ok(ints.value))
      && (ints.Ok? && ints.value.0 < 1 ==> r == Err(InvalidGridArgument("initial_points must be a >= 1")))
      && (ints.Ok? && ints.value.0 >= 1 && ints.value.1 < 0 ==> r == Err(InvalidGridArgument("iterations must be a >= 0")))
  {
    var (ip, it) :- GridInts(initialPoints, iterations);
    if ip < 1 then Err(InvalidGridArgument("initial_points must be a >= 1"))
    else if it < 0 then Err(InvalidGridArgument("iterations must be a >= 0"))
    else Ok((ip, it))
  }

  /** The two versions agree on every valid input and differ on every
      out-of-range one, where only the intended version raises the
      component's exception. */
  lemma GridArgumentsDiffer(initialPoints: Value, iterations: Value)
    ensures GridArguments(initialPoints, iterations).Ok? ==>
      GridArgumentsAsWritten(initialPoints, iterations) == GridArguments(initialPoints, iterations)
    ensures GridArguments(initialPoints, iterations).Err? && GridArguments(initialPoints, iterations).error.InvalidGridArgument? ==>
      GridArgumentsAsWritten(initialPoints, iterations) == Err(ConstructorArity)
  {
  }

  /** The coordinates along one axis, lines 304-307:
      `linspace(-s*sigma*e, s*sigma*e, n) + centre`. */
  function AxisValues(centre: real, half: real, n: nat): (r: seq<real>)
    ensures |r| == n
    ensures n >= 2 ==> r[0] == centre - half && r[n - 1] == centre + half
    ensures n >= 3 && n % 2 == 1 ==> r[n / 2] == centre
  {
    var l := Linspace(-half, half, n);
    var r := seq(n, i requires 0 <= i < n => l[i] + centre);
    if n >= 3 && n % 2 == 1 then
      LinspaceMidpoint(0.0, half, n / 2);
      assert 2 * (n / 2) + 1 == n;
      r
    else r
  }

  /** `max(1, 2 ** (iterations - 4))` of line 403: a power of two, and 1 for
      fewer than five iterations. */
  function PaddingScale(iterations: nat): (k: nat)
    ensures k >= 1
    ensures iterations <= 4 ==> k == 1
    ensures iterations >= 4 ==> k == Pow2(iterations - 4)
  {
    if iterations >= 4 then Pow2(iterations - 4) else 1
  }

  /** Line 403: `int(3 / area_scale_factor * max(1, 2 ** (iterations - 4)))`.
      An integer factor divides with Python 2 floor division; `2 ** k` for a
      negative `k` is a float below 1, so the `max` is 1 then. */
  function Padding(areaScaleFactor: Value, iterations: nat): (r: Result<int>)
    ensures areaScaleFactor.Text? ==> r == Err(NotANumber("area_scale_factor"))
    ensures areaScaleFactor.Int? && areaScaleFactor.i != 0 ==>
      r == Ok(FloorDiv(3, areaScaleFactor.i) * PaddingScale(iterations))
    ensures areaScaleFactor.Float? && areaScaleFactor.f != 0.0 ==>
      r == Ok(Trunc(Scaled(areaScaleFactor.f, PaddingScale(iterations))))
    ensures (areaScaleFactor == Int(0) || areaScaleFactor == Float(0.0)) ==> r == Err(DivisionByZero)
    ensures areaScaleFactor.Float? && areaScaleFactor.f > 0.0 ==> r.Ok? && r.value >= 0
    ensures areaScaleFactor.Float? && areaScaleFactor.f < 0.0 ==> r.Ok? && r.value <= 0
    ensures areaScaleFactor.Int? && areaScaleFactor.i > 0 ==> r.Ok? && r.value >= 0
    ensures areaScaleFactor.Int? && areaScaleFactor.i < 0 ==> r.Ok? && r.value < 0
  {
    match areaScaleFactor
    case Int(a) => if a == 0 then Err(DivisionByZero) else Ok(IntPadding(a, PaddingScale(iterations)))
    case Float(f) => if f == 0.0 then Err(DivisionByZero) else Ok(FloatPadding(f, PaddingScale(iterations)))
    case Text(_) => Err(NotANumber("area_scale_factor"))
  }

  /** `3 / a * k` for an int factor `a`, with Python 2 floor division: it has
      the sign of `a`. */
  function IntPadding(a: int, k: nat): (p: int)
    requires a != 0 && k >= 1
    ensures p == FloorDiv(3, a) * k
    ensures a > 0 ==> p >= 0
    ensures a < 0 ==> p < 0
  {
    var q := FloorDiv(3, a);
    assert a > 0 ==> q >= 0;
    assert a < 0 ==> q < 0;
    MulSigns(q, k);
    q * k
  }

  /** `3.0 / f * k`: it has the sign of `f`. */
  function Scaled(f: real, k: nat): (x: real)
    requires f != 0.0 && k >= 1
    ensures f > 0.0 ==> x > 0.0
    ensures f < 0.0 ==> x < 0.0
  {
    assert f > 0.0 ==> 3.0 / f > 0.0;
    assert f < 0.0 ==> 3.0 / f < 0.0;
    RealMulSigns(3.0 / f, k as real);
    3.0 / f * (k as real)
  }

  /** `int(3.0 / f * k)` for a float factor `f`: truncated toward zero, so it
      is at least 0 for a positive `f` and at most 0 for a negative one. */
  function FloatPadding(f: real, k: nat): (p: int)
    requires f != 0.0 && k >= 1
    ensures p == Trunc(Scaled(f, k))
    ensures f > 0.0 ==> p >= 0
    ensures f < 0.0 ==> p <= 0
  {
    Trunc(Scaled(f, k))
  }

  lemma MulSigns(q: int, k: int)
    requires k >= 1
    ensures q >= 0 ==> q * k >= 0
    ensures q < 0 ==> q * k < 0
  {
    if q < 0 {
      MulAtLeast(-q, k);
    } else if q > 0 {
      MulAtLeast(q, k);
    }
  }

  lemma RealMulSigns(x: real, k: real)
    requires k >= 1.0
    ensures x > 0.0 ==> x * k > 0.0
    ensures x < 0.0 ==> x * k < 0.0
  {
  }

  /** With the default scale factor 1.5 and five iterations the padding is four cells. */
  lemma DefaultPadding()
    ensures Padding(Float(1.5), 5) == Ok(4)
  {
    assert Pow2(1) == 2;
    assert 3.0 / 1.5 * 2.0 == 4.0;
  }

  // ---------------------------------------------------------------------------
  // The coarse pass (lines 317-321)

  /** Every cell whose coordinates are both multiples of the stride gets its
      cost; no other cell changes. */
  method CoarsePass(s: GridSetup, grid: array2<real>, step: int)
    requires step >= 1 && grid.Length0 == |s.xValues| && grid.Length1 == |s.yValues|
    modifies grid
    ensures forall a, b :: 0 <= a < grid.Length0 && 0 <= b < grid.Length1 ==>
      grid[a, b] == if a % step == 0 && b % step == 0 then CellCost(s, (a, b)) else old(grid[a, b])
  {
    var x := 0;
    while x < grid.Length0
      invariant x >= 0 && x % step == 0
      invariant forall a, b :: 0 <= a < grid.Length0 && 0 <= b < grid.Length1 ==>
        grid[a, b] == if a < x && a % step == 0 && b % step == 0 then CellCost(s, (a, b)) else old(grid[a, b])
    {
      var y := 0;
      while y < grid.Length1
        invariant y >= 0 && y % step == 0
        invariant forall a, b :: 0 <= a < grid.Length0 && 0 <= b < grid.Length1 ==>
          grid[a, b] == if (a < x || (a == x && b < y)) && a % step == 0 && b % step == 0
            then CellCost(s, (a, b)) else old(grid[a, b])
      {
        grid[x, y] := CellCost(s, (x, y));
        forall b | y < b < y + step
          ensures b % step != 0
        {
          if b % step == 0 {
            NextOnLattice(y, b, step);
          }
        }
        StepKeepsResidue(y, step);
        y := y + step;
      }
      forall a | x < a < x + step
        ensures a % step != 0
      {
        if a % step == 0 {
          NextOnLattice(x, a, step);
        }
      }
      StepKeepsResidue(x, step);
      x := x + step;
    }
  }

  // ---------------------------------------------------------------------------
  // One refinement pass (lines 329-363)

  /** Cell `c` is visited before position `(x, y)`: the pass runs column by
      column, upward within a column. */
  predicate Before(c: Cell, x: int, y: int) {
    c.0 < x || (c.0 == x && c.1 < y)
  }

  /** A square grid of side `n` matching the axes, and a pass that fits it. */
  predicate PassReady(s: GridSetup, g: Grid, p: Pass) {
    Rectangular(g) && Cols(g) == |g| && |s.xValues| == |g| && |s.yValues| == |g| && ValidPass(p, |g|)
  }

  /** The value a pass leaves at a visited cell: the shortcut's value, or the
      cost when the shortcut returns the sentinel -1. */
  function PassValue(s: GridSetup, contourFun: real, g: Grid, p: Pass, c: Cell): real
    requires PassReady(s, g, p) && PassPoint(p, c) && InGrid(c, |g|, |g|)
  {
    var h := PassHeuristic(contourFun, g, p, c);
    if h == -1.0 then CellCost(s, c) else h
  }

  /** The visited cells before `(x, y)` where the pass had to evaluate the cost. */
  ghost function Evaluated(s: GridSetup, contourFun: real, g: Grid, p: Pass, x: int, y: int): set<Cell>
    requires PassReady(s, g, p)
  {
    set c | c in Cells(|g|) && Before(c, x, y) && ShortcutFails(contourFun, g, p, c)
  }

  /** The cells of a square grid of side `n`. */
  ghost function Cells(n: int): (r: set<Cell>)
    ensures forall c :: c in r <==> InGrid(c, n, n)
  {
    set a, b | 0 <= a < n && 0 <= b < n :: (a, b)
  }

  /** `c` is a visited cell where the shortcut returns the sentinel -1. */
  predicate ShortcutFails(contourFun: real, g: Grid, p: Pass, c: Cell) {
    Rectangular(g) && Cols(g) == |g| && ValidPass(p, |g|) && PassPoint(p, c) && InGrid(c, |g|, |g|)
    && PassHeuristic(contourFun, g, p, c) == -1.0
  }

  /** The cells put on the unsure list around the cells of `e`. */
  ghost function NeighbourCells(p: Pass, e: set<Cell>): set<Cell> {
    set c, d | c in e && d in NeighbourSet(p, c) :: d
  }

  /** The pass has handled every visited cell before `(x, y)` and nothing else:
      those cells hold their pass value, all others their value in `g`. */
  ghost predicate PassProgress(s: GridSetup, contourFun: real, g: Grid, p: Pass, grid: array2<real>, x: int, y: int)
    requires PassReady(s, g, p)
    reads grid
  {
    grid.Length0 == |g| && grid.Length1 == |g|
    && forall a, b :: 0 <= a < |g| && 0 <= b < |g| ==>
         grid[a, b] == if PassPoint(p, (a, b)) && Before((a, b), x, y) then PassValue(s, contourFun, g, p, (a, b)) else g[a][b]
  }

  /** `PassProgress` for a value grid. */
  ghost predicate GridProgress(s: GridSetup, contourFun: real, g: Grid, p: Pass, v: Grid, x: int, y: int)
    requires PassReady(s, g, p)
  {
    Rectangular(v) && |v| == |g| && Cols(v) == |g|
    && forall a, b :: 0 <= a < |g| && 0 <= b < |g| ==>
         v[a][b] == if PassPoint(p, (a, b)) && Before((a, b), x, y) then PassValue(s, contourFun, g, p, (a, b)) else g[a][b]
  }

  lemma SnapshotProgress(s: GridSetup, contourFun: real, g: Grid, p: Pass, grid: array2<real>, x: int, y: int)
    requires PassReady(s, g, p) && PassProgress(s, contourFun, g, p, grid, x, y)
    ensures GridProgress(s, contourFun, g, p, Snapshot(grid), x, y)
  {
  }

  /** Writing the pass value of the visited cell moves the progress one cell on. */
  lemma WriteProgress(s: GridSetup, contourFun: real, g: Grid, p: Pass, grid: array2<real>, before: Grid, x: int, y: int)
    requires PassReady(s, g, p) && PassPoint(p, (x, y)) && InGrid((x, y), |g|, |g|)
    requires GridProgress(s, contourFun, g, p, before, x, y)
    requires grid.Length0 == |g| && grid.Length1 == |g|
    requires WrittenAt(grid, before, x, y, PassValue(s, contourFun, g, p, (x, y)))
    ensures PassProgress(s, contourFun, g, p, grid, x, y + 1)
  {
    forall a, b | 0 <= a < |g| && 0 <= b < |g|
      ensures grid[a, b] == if PassPoint(p, (a, b)) && Before((a, b), x, y + 1) then PassValue(s, contourFun, g, p, (a, b)) else g[a][b]
    {
      assert |before[a]| == Cols(before) == |g|;
      if (a, b) != (x, y) {
        assert grid[a, b] == before[a][b];
      }
    }
  }

  /** Midway through a pass, the shortcut at a visited cell reads the same
      values as at the start of the pass. */
  lemma ProgressHeuristic(s: GridSetup, contourFun: real, g: Grid, p: Pass, v: Grid, x: int, y: int, c: Cell)
    requires PassReady(s, g, p) && GridProgress(s, contourFun, g, p, v, x, y)
    requires PassPoint(p, c) && InGrid(c, |g|, |g|)
    ensures |AdjacentGridPoints(v, c.0, c.1, Vector1(p), Vector2(p))| > 0
    ensures HeuristicPointEvaluation(contourFun, v, c.0, c.1, Vector1(p), Vector2(p)) == PassHeuristic(contourFun, g, p, c)
  {
    assert forall i, j :: 0 <= i < |g| && 0 <= j < |g| && !PassPoint(p, (i, j)) ==> g[i][j] == v[i][j];
    PassHeuristicLocal(contourFun, g, v, p, c);
    PassPointHasNeighbour(p, |g|, c);
  }

  /** Two positions that no visited cell of the grid lies between. */
  ghost predicate SamePrefix(p: Pass, n: int, x1: int, y1: int, x2: int, y2: int) {
    forall c :: InGrid(c, n, n) && PassPoint(p, c) ==> (Before(c, x1, y1) <==> Before(c, x2, y2))
  }

  lemma SamePrefixProgress(s: GridSetup, contourFun: real, g: Grid, p: Pass, grid: array2<real>, x1: int, y1: int, x2: int, y2: int)
    requires PassReady(s, g, p) && SamePrefix(p, |g|, x1, y1, x2, y2)
    requires PassProgress(s, contourFun, g, p, grid, x1, y1)
    ensures PassProgress(s, contourFun, g, p, grid, x2, y2)
  {
    forall a, b | 0 <= a < |g| && 0 <= b < |g|
      ensures grid[a, b] == if PassPoint(p, (a, b)) && Before((a, b), x2, y2) then PassValue(s, contourFun, g, p, (a, b)) else g[a][b]
    {
      if PassPoint(p, (a, b)) {
        assert InGrid((a, b), |g|, |g|);
        assert Before((a, b), x1, y1) <==> Before((a, b), x2, y2);
      }
    }
  }

  lemma SamePrefixEvaluated(s: GridSetup, contourFun: real, g: Grid, p: Pass, x1: int, y1: int, x2: int, y2: int)
    requires PassReady(s, g, p) && SamePrefix(p, |g|, x1, y1, x2, y2)
    ensures Evaluated(s, contourFun, g, p, x1, y1) == Evaluated(s, contourFun, g, p, x2, y2)
  {
    forall c | InGrid(c, |g|, |g|) && PassPoint(p, c)
      ensures Before(c, x1, y1) <==> Before(c, x2, y2)
    {
    }
  }

  /** Within a column, no visited cell lies strictly between two visited cells one stride apart. */
  lemma SkipWithinColumn(p: Pass, n: int, x: int, y: int, y': int)
    requires ValidPass(p, n) && PassPoint(p, (x, y)) && y' == y + p.yStep
    ensures SamePrefix(p, n, x, y + 1, x, y')
  {
    forall c | InGrid(c, n, n) && PassPoint(p, c) && c.0 == x && y < c.1 < y + p.yStep
      ensures false
    {
      PassResidues(p, n, c, (x, y));
      NextOnLattice(y, c.1, p.yStep);
    }
  }

  /** After a finished column, no visited cell lies before the next visited column. */
  lemma SkipToNextColumn(p: Pass, n: int, x: int, y0: int, y: int, x': int)
    requires ValidPass(p, n) && PassPoint(p, (x, y0)) && y >= n && x' == x + p.xStep
    ensures SamePrefix(p, n, x, y, x', 0)
  {
    forall c | InGrid(c, n, n) && PassPoint(p, c) && x < c.0 < x + p.xStep
      ensures false
    {
      PassResidues(p, n, c, (x, y0));
      NextOnLattice(x, c.0, p.xStep);
    }
  }

  /** `grid` holds `v` at `(x, y)` and the values of `before` everywhere else. */
  ghost predicate WrittenAt(grid: array2<real>, before: Grid, x: int, y: int, v: real)
    reads grid
  {
    0 <= x < grid.Length0 && 0 <= y < grid.Length1 && grid[x, y] == v
    && forall a, b :: 0 <= a < grid.Length0 && 0 <= b < grid.Length1 && (a, b) != (x, y) ==>
         a < |before| && b < |before[a]| && grid[a, b] == before[a][b]
  }

  /** `grid[x, y] = v`, stated against a value snapshot taken before. */
  method SetCell(grid: array2<real>, ghost before: Grid, x: int, y: int, v: real)
    requires before == Snapshot(grid) && 0 <= x < grid.Length0 && 0 <= y < grid.Length1
    modifies grid
    ensures WrittenAt(grid, before, x, y, v)
  {
    grid[x, y] := v;
  }

  /** Visit one cell (lines 346-363): take the shortcut's value, or evaluate the
      cost, confirm the cell and put its four neighbours on the unsure list. */
  method Visit(s: GridSetup, grid: array2<real>, contourFun: real, ghost g: Grid, p: Pass, x: int, y: int,
               confirmed: set<Cell>, unsure: set<Cell>)
    returns (confirmed': set<Cell>, unsure': set<Cell>)
    requires PassReady(s, g, p) && PassPoint(p, (x, y)) && InGrid((x, y), |g|, |g|)
    requires PassProgress(s, contourFun, g, p, grid, x, y)
    modifies grid
    ensures PassProgress(s, contourFun, g, p, grid, x, y + 1)
    ensures PassHeuristic(contourFun, g, p, (x, y)) == -1.0 ==>
      confirmed' == confirmed + {(x, y)} && unsure' == unsure + NeighbourSet(p, (x, y))
    ensures PassHeuristic(contourFun, g, p, (x, y)) != -1.0 ==> confirmed' == confirmed && unsure' == unsure
  {
    ghost var before := Snapshot(grid);
    SnapshotProgress(s, contourFun, g, p, grid, x, y);
    ProgressHeuristic(s, contourFun, g, p, before, x, y, (x, y));
    var pointValue := HeuristicValue(contourFun, grid, x, y, Vector1(p), Vector2(p));
    var value := pointValue;
    confirmed', unsure' := confirmed, unsure;
    if pointValue == -1.0 {
      value := CellCost(s, (x, y));
      confirmed' := confirmed' + {(x, y)};
      unsure' := unsure' + NeighbourSet(p, (x, y));
    }
    Record(s, grid, contourFun, g, p, x, y, value, before);
  }

  /** Store a visited cell's pass value. */
  method Record(s: GridSetup, grid: array2<real>, contourFun: real, ghost g: Grid, p: Pass, x: int, y: int, v: real,
                ghost before: Grid)
    requires PassReady(s, g, p) && PassPoint(p, (x, y)) && InGrid((x, y), |g|, |g|)
    requires before == Snapshot(grid) && GridProgress(s, contourFun, g, p, before, x, y)
    requires grid.Length0 == |g| && grid.Length1 == |g|
    requires v == PassValue(s, contourFun, g, p, (x, y))
    modifies grid
    ensures PassProgress(s, contourFun, g, p, grid, x, y + 1)
  {
    SetCell(grid, before, x, y, v);
    WriteProgress(s, contourFun, g, p, grid, before, x, y);
  }

  /** The visited cells before `(x, y + 1)` are those before `(x, y)`, and
      `(x, y)` itself when the shortcut fails there. */
  lemma EvaluatedStep(s: GridSetup, contourFun: real, g: Grid, p: Pass, x: int, y: int)
    requires PassReady(s, g, p) && PassPoint(p, (x, y)) && InGrid((x, y), |g|, |g|)
    ensures Evaluated(s, contourFun, g, p, x, y + 1) == Evaluated(s, contourFun, g, p, x, y)
      + (if PassHeuristic(contourFun, g, p, (x, y)) == -1.0 then {(x, y)} else {})
  {
    var fails := set c | c in Cells(|g|) && ShortcutFails(contourFun, g, p, c);
    assert Evaluated(s, contourFun, g, p, x, y) == VisitedIn(fails, x, y);
    assert Evaluated(s, contourFun, g, p, x, y + 1) == VisitedIn(fails, x, y + 1);
    VisitedStep(fails, x, y);
    assert (x, y) in fails <==> PassHeuristic(contourFun, g, p, (x, y)) == -1.0;
  }

  /** The cells of `cells` visited before `(x, y)`. */
  ghost function VisitedIn(cells: set<Cell>, x: int, y: int): set<Cell> {
    set c | c in cells && Before(c, x, y)
  }

  lemma VisitedStep(cells: set<Cell>, x: int, y: int)
    ensures VisitedIn(cells, x, y + 1) == VisitedIn(cells, x, y) + (if (x, y) in cells then {(x, y)} else {})
  {
    forall c | c in VisitedIn(cells, x, y + 1)
      ensures c in VisitedIn(cells, x, y) || c == (x, y)
    {
      assert Before(c, x, y) || c == (x, y);
    }
  }

  lemma NeighbourCellsAdd(p: Pass, e: set<Cell>, c: Cell)
    ensures NeighbourCells(p, e + {c}) == NeighbourCells(p, e) + NeighbourSet(p, c)
  {
    forall d | d in NeighbourCells(p, e + {c})
      ensures d in NeighbourCells(p, e) || d in NeighbourSet(p, c)
    {
      var c' :| c' in e + {c} && d in NeighbourSet(p, c');
      if c' != c {
        assert c' in e;
      }
    }
  }

  /** The columns a pass visits (line 340): `_x_0` plus a multiple of `_x_step`. */
  predicate PassColumn(p: Pass, x: int) {
    p.xStep >= 1 && x % p.xStep == if p.even then p.xStep / 2 else 0
  }

  /** The first row a column of the pass visits (lines 341-344). */
  function FirstRow(p: Pass, x: int): int
    requires p.xStep >= 1
  {
    if p.even then p.yStep / 2
    else if x % (2 * p.xStep) == 0 then p.yStep / 2
    else 0
  }

  /** A multiple of `h` is 0 or `h` modulo `2 * h`. */
  lemma DoubleResidue(x: int, h: int)
    requires h >= 1 && x % h == 0
    ensures x % (2 * h) == 0 || x % (2 * h) == h
  {
    var q, r := x / (2 * h), x % (2 * h);
    assert x == (2 * q) * h + r;
    if r < h {
      DivModUnique(x, h, 2 * q, r);
    } else {
      assert x == (2 * q + 1) * h + (r - h);
      DivModUnique(x, h, 2 * q + 1, r - h);
    }
  }

  /** Each column of a pass starts at a visited cell, and no visited cell of that
      column lies below it. */
  lemma ColumnStart(p: Pass, n: int, x: int)
    requires ValidPass(p, n) && PassColumn(p, x)
    ensures PassPoint(p, (x, FirstRow(p, x)))
    ensures SamePrefix(p, n, x, 0, x, FirstRow(p, x))
  {
    if p.even {
      DivModUnique(p.yStep / 2, p.yStep, 0, p.yStep / 2);
      forall c | InGrid(c, n, n) && PassPoint(p, c) && c.0 == x
        ensures c.1 >= FirstRow(p, x)
      {
        ModAtMost(c.1, p.yStep);
      }
    } else {
      DoubleResidue(x, p.xStep);
      DivModUnique(p.xStep, p.yStep, 0, p.xStep);
      DivModUnique(0, p.yStep, 0, 0);
      if x % p.yStep == 0 {
        forall c | InGrid(c, n, n) && PassPoint(p, c) && c.0 == x
          ensures c.1 >= FirstRow(p, x)
        {
          ModAtMost(c.1, p.yStep);
        }
      }
    }
  }

  /** One stride up a column is again a visited cell. */
  lemma ColumnStep(p: Pass, n: int, x: int, y: int, y': int)
    requires ValidPass(p, n) && PassPoint(p, (x, y)) && y' == y + p.yStep
    ensures PassPoint(p, (x, y'))
  {
    StepKeepsResidue(y, p.yStep);
  }

  /** No visited cell of the pass lies before its first column. */
  lemma PassStart(p: Pass, n: int)
    requires ValidPass(p, n)
    ensures PassColumn(p, if p.even then p.xStep / 2 else 0)
    ensures SamePrefix(p, n, 0, 0, if p.even then p.xStep / 2 else 0, 0)
  {
    if p.even {
      DivModUnique(p.xStep / 2, p.xStep, 0, p.xStep / 2);
      forall c | InGrid(c, n, n) && PassPoint(p, c)
        ensures c.0 >= p.xStep / 2
      {
        ModAtMost(c.0, p.xStep);
      }
    } else {
      DivModUnique(0, p.xStep, 0, 0);
    }
  }

  /** The confirmed and unsure sets after a visit keep their relation to the
      cells evaluated so far. */
  lemma ColumnSets(p: Pass, c: Cell, fails: bool, e: set<Cell>, e': set<Cell>, c0: set<Cell>, u0: set<Cell>,
                   confirmed: set<Cell>, unsure: set<Cell>, confirmed': set<Cell>, unsure': set<Cell>)
    requires e' == e + (if fails then {c} else {})
    requires confirmed == c0 + e && unsure == u0 + NeighbourCells(p, e)
    requires fails ==> confirmed' == confirmed + {c} && unsure' == unsure + NeighbourSet(p, c)
    requires !fails ==> confirmed' == confirmed && unsure' == unsure
    ensures confirmed' == c0 + e' && unsure' == u0 + NeighbourCells(p, e')
  {
    if fails {
      NeighbourCellsAdd(p, e, c);
    }
  }

  /** The visited cells one stride up a column. */
  lemma ColumnEvaluated(s: GridSetup, contourFun: real, g: Grid, p: Pass, x: int, y: int, y': int)
    requires PassReady(s, g, p) && PassPoint(p, (x, y)) && InGrid((x, y), |g|, |g|) && y' == y + p.yStep
    ensures Evaluated(s, contourFun, g, p, x, y') == Evaluated(s, contourFun, g, p, x, y)
      + (if PassHeuristic(contourFun, g, p, (x, y)) == -1.0 then {(x, y)} else {})
  {
    EvaluatedStep(s, contourFun, g, p, x, y);
    SkipWithinColumn(p, |g|, x, y, y');
    SamePrefixEvaluated(s, contourFun, g, p, x, y + 1, x, y');
  }

  /** Positions past the last row of the same column, or past the last column,
      enclose the same visited cells. */
  lemma PastTheEnd(p: Pass, n: int, x1: int, y1: int, x2: int, y2: int)
    requires (x1 == x2 && y1 >= n && y2 >= n) || (x1 >= n && x2 >= n)
    ensures SamePrefix(p, n, x1, y1, x2, y2)
  {
  }

  /** Visit one cell and move one stride up the column. */
  method Advance(s: GridSetup, grid: array2<real>, contourFun: real, ghost g: Grid, p: Pass, x: int, y: int,
                 ghost c0: set<Cell>, ghost u0: set<Cell>, confirmed: set<Cell>, unsure: set<Cell>)
    returns (confirmed': set<Cell>, unsure': set<Cell>, y': int)
    requires PassReady(s, g, p) && PassPoint(p, (x, y)) && InGrid((x, y), |g|, |g|)
    requires PassProgress(s, contourFun, g, p, grid, x, y)
    requires confirmed == c0 + Evaluated(s, contourFun, g, p, x, y)
    requires unsure == u0 + NeighbourCells(p, Evaluated(s, contourFun, g, p, x, y))
    modifies grid
    ensures y' == y + p.yStep && PassPoint(p, (x, y'))
    ensures PassProgress(s, contourFun, g, p, grid, x, y')
    ensures confirmed' == c0 + Evaluated(s, contourFun, g, p, x, y')
    ensures unsure' == u0 + NeighbourCells(p, Evaluated(s, contourFun, g, p, x, y'))
  {
    y' := y + p.yStep;
    ghost var e := Evaluated(s, contourFun, g, p, x, y);
    confirmed', unsure' := Visit(s, grid, contourFun, g, p, x, y, confirmed, unsure);
    ColumnEvaluated(s, contourFun, g, p, x, y, y');
    ColumnSets(p, (x, y), PassHeuristic(contourFun, g, p, (x, y)) == -1.0, e, Evaluated(s, contourFun, g, p, x, y'),
               c0, u0, confirmed, unsure, confirmed', unsure');
    SkipWithinColumn(p, |g|, x, y, y');
    SamePrefixProgress(s, contourFun, g, p, grid, x, y + 1, x, y');
    ColumnStep(p, |g|, x, y, y');
  }

  /** Visit the cells of column `x` (lines 345-363). */
  method RefineColumn(s: GridSetup, grid: array2<real>, contourFun: real, ghost g: Grid, p: Pass, x: int,
                      ghost c0: set<Cell>, ghost u0: set<Cell>, confirmed: set<Cell>, unsure: set<Cell>)
    returns (confirmed': set<Cell>, unsure': set<Cell>)
    requires PassReady(s, g, p) && PassColumn(p, x) && 0 <= x < |g|
    requires PassProgress(s, contourFun, g, p, grid, x, 0)
    requires confirmed == c0 + Evaluated(s, contourFun, g, p, x, 0)
    requires unsure == u0 + NeighbourCells(p, Evaluated(s, contourFun, g, p, x, 0))
    modifies grid
    ensures PassProgress(s, contourFun, g, p, grid, x, |g|)
    ensures confirmed' == c0 + Evaluated(s, contourFun, g, p, x, |g|)
    ensures unsure' == u0 + NeighbourCells(p, Evaluated(s, contourFun, g, p, x, |g|))
  {
    ghost var n := |g|;
    var y := FirstRow(p, x);
    ColumnStart(p, n, x);
    SamePrefixProgress(s, contourFun, g, p, grid, x, 0, x, y);
    SamePrefixEvaluated(s, contourFun, g, p, x, 0, x, y);
    confirmed', unsure' := confirmed, unsure;
    while y < grid.Length1
      invariant grid.Length0 == n && grid.Length1 == n
      invariant y >= 0 && PassPoint(p, (x, y))
      invariant PassProgress(s, contourFun, g, p, grid, x, y)
      invariant confirmed' == c0 + Evaluated(s, contourFun, g, p, x, y)
      invariant unsure' == u0 + NeighbourCells(p, Evaluated(s, contourFun, g, p, x, y))
      decreases grid.Length1 - y
    {
      confirmed', unsure', y := Advance(s, grid, contourFun, g, p, x, y, c0, u0, confirmed', unsure');
    }
    PastTheEnd(p, n, x, y, x, n);
    SamePrefixProgress(s, contourFun, g, p, grid, x, y, x, n);
    SamePrefixEvaluated(s, contourFun, g, p, x, y, x, n);
  }

  /** One stride to the right is again a column of the pass. */
  lemma ColumnAdvance(p: Pass, x: int, x': int)
    requires PassColumn(p, x) && x' == x + p.xStep
    ensures PassColumn(p, x')
  {
    StepKeepsResidue(x, p.xStep);
  }

  /** No cell lies before the origin. */
  lemma NothingBeforeOrigin(s: GridSetup, contourFun: real, g: Grid, p: Pass)
    requires PassReady(s, g, p)
    ensures Evaluated(s, contourFun, g, p, 0, 0) == {}
  {
    forall c | c in Evaluated(s, contourFun, g, p, 0, 0)
      ensures false
    {
    }
  }

  /** Refine column `x` and move to the next column of the pass. */
  method NextColumn(s: GridSetup, grid: array2<real>, contourFun: real, ghost g: Grid, p: Pass, x: int,
                    ghost c0: set<Cell>, ghost u0: set<Cell>, confirmed: set<Cell>, unsure: set<Cell>)
    returns (confirmed': set<Cell>, unsure': set<Cell>, x': int)
    requires PassReady(s, g, p) && PassColumn(p, x) && 0 <= x < |g|
    requires PassProgress(s, contourFun, g, p, grid, x, 0)
    requires confirmed == c0 + Evaluated(s, contourFun, g, p, x, 0)
    requires unsure == u0 + NeighbourCells(p, Evaluated(s, contourFun, g, p, x, 0))
    modifies grid
    ensures x' == x + p.xStep && PassColumn(p, x')
    ensures PassProgress(s, contourFun, g, p, grid, x', 0)
    ensures confirmed' == c0 + Evaluated(s, contourFun, g, p, x', 0)
    ensures unsure' == u0 + NeighbourCells(p, Evaluated(s, contourFun, g, p, x', 0))
  {
    x' := x + p.xStep;
    confirmed', unsure' := RefineColumn(s, grid, contourFun, g, p, x, c0, u0, confirmed, unsure);
    ColumnStart(p, |g|, x);
    SkipToNextColumn(p, |g|, x, FirstRow(p, x), |g|, x');
    SamePrefixProgress(s, contourFun, g, p, grid, x, |g|, x', 0);
    SamePrefixEvaluated(s, contourFun, g, p, x, |g|, x', 0);
    ColumnAdvance(p, x, x');
  }

  /** One refinement pass (lines 329-363): every visited cell ends with its pass
      value and every other cell keeps its value; the evaluated cells are
      confirmed and their neighbours are put on the unsure list. */
  method RefinementPass(s: GridSetup, grid: array2<real>, contourFun: real, ghost g: Grid, p: Pass,
                        confirmed: set<Cell>, unsure: set<Cell>)
    returns (confirmed': set<Cell>, unsure': set<Cell>)
    requires PassReady(s, g, p) && PassProgress(s, contourFun, g, p, grid, 0, 0)
    modifies grid
    ensures PassProgress(s, contourFun, g, p, grid, |g|, 0)
    ensures confirmed' == confirmed + Evaluated(s, contourFun, g, p, |g|, 0)
    ensures unsure' == unsure + NeighbourCells(p, Evaluated(s, contourFun, g, p, |g|, 0))
  {
    ghost var n := |g|;
    var x := if p.even then p.xStep / 2 else 0;
    PassStart(p, n);
    SamePrefixProgress(s, contourFun, g, p, grid, 0, 0, x, 0);
    SamePrefixEvaluated(s, contourFun, g, p, 0, 0, x, 0);
    NothingBeforeOrigin(s, contourFun, g, p);
    confirmed', unsure' := confirmed, unsure;
    while x < grid.Length0
      invariant grid.Length0 == n && grid.Length1 == n
      invariant x >= 0 && PassColumn(p, x)
      invariant PassProgress(s, contourFun, g, p, grid, x, 0)
      invariant confirmed' == confirmed + Evaluated(s, contourFun, g, p, x, 0)
      invariant unsure' == unsure + NeighbourCells(p, Evaluated(s, contourFun, g, p, x, 0))
      decreases grid.Length0 - x
    {
      confirmed', unsure', x := NextColumn(s, grid, contourFun, g, p, x, confirmed, unsure, confirmed', unsure');
    }
    PastTheEnd(p, n, x, 0, n, 0);
    SamePrefixProgress(s, contourFun, g, p, grid, x, 0, n, 0);
    SamePrefixEvaluated(s, contourFun, g, p, x, 0, n, 0);
  }

  // ---------------------------------------------------------------------------
  // The unsure list (lines 365-392)

  /** The fresh cost and the value the cell held lie strictly on opposite
      sides of the contour level (lines 378-379). */
  predicate Flips(current: real, previous: real, contourFun: real) {
    (current > contourFun && previous < contourFun) || (current < contourFun && previous > contourFun)
  }

  /** Evaluate the cost at one cell of the unsure list and store it; report
      whether it lies on the other side of the contour level than the value
      the cell held (lines 370-382). */
  method Reevaluate(s: GridSetup, grid: array2<real>, contourFun: real, c: Cell) returns (flipped: bool)
    requires grid.Length0 == |s.xValues| && grid.Length1 == |s.yValues| && InGrid(c, grid.Length0, grid.Length1)
    modifies grid
    ensures flipped == Flips(CellCost(s, c), old(grid[c.0, c.1]), contourFun)
    ensures grid[c.0, c.1] == CellCost(s, c)
    ensures forall a, b :: 0 <= a < grid.Length0 && 0 <= b < grid.Length1 && (a, b) != c ==> grid[a, b] == old(grid[a, b])
  {
    var currentFun := CellCost(s, c);
    var gridFun := grid[c.0, c.1];
    flipped := Flips(currentFun, gridFun, contourFun);
    grid[c.0, c.1] := currentFun;
  }

  /** The cell's fresh cost lies on the other side of the contour level than
      its value in `g0`. */
  ghost predicate FlipsAt(s: GridSetup, contourFun: real, g0: Grid, c: Cell) {
    0 <= c.0 < |s.xValues| && 0 <= c.1 < |s.yValues| && 0 <= c.0 < |g0| && 0 <= c.1 < |g0[c.0]|
    && Flips(CellCost(s, c), g0[c.0][c.1], contourFun)
  }

  /** Every in-grid cell of `unsure` is a cell of pass `p`. */
  ghost predicate OnLattice(p: Pass, n: int, unsure: set<Cell>) {
    ValidPass(p, n) && forall c :: c in unsure && InGrid(c, n, n) ==> PassPoint(p, c)
  }

  /** What the worklist loop keeps about its sets: the evaluated cells are the
      newly confirmed ones; every in-grid cell that was unsure, and every
      in-grid neighbour of a cell that flipped, is confirmed or still waiting;
      every evaluated or waiting cell was unsure or neighbours a flipped cell. */
  ghost predicate DrainSets(s: GridSetup, contourFun: real, g0: Grid, p: Pass, n: int, confirmed: set<Cell>, unsure: set<Cell>,
                            confirmed': set<Cell>, evaluated: set<Cell>, work: set<Cell>) {
    evaluated !! confirmed && confirmed' == confirmed + evaluated
    && (forall c :: c in evaluated ==> InGrid(c, n, n))
    && (forall c :: c in unsure && InGrid(c, n, n) ==> c in confirmed' || c in work)
    && (forall c, d :: c in evaluated && FlipsAt(s, contourFun, g0, c) && d in NeighbourSet(p, c) && InGrid(d, n, n)
          ==> d in confirmed' || d in work)
    && (forall c :: c in evaluated || c in work ==>
          c in unsure || exists d :: d in evaluated && FlipsAt(s, contourFun, g0, d) && c in NeighbourSet(p, d))
    && (OnLattice(p, n, unsure) ==> forall c :: (c in work || c in evaluated) && InGrid(c, n, n) ==> PassPoint(p, c))
  }

  lemma DrainSkip(s: GridSetup, contourFun: real, g0: Grid, p: Pass, n: int, confirmed: set<Cell>, unsure: set<Cell>,
                  confirmed': set<Cell>, evaluated: set<Cell>, work: set<Cell>, c: Cell)
    requires DrainSets(s, contourFun, g0, p, n, confirmed, unsure, confirmed', evaluated, work)
    requires c in work && (!InGrid(c, n, n) || c in confirmed')
    ensures DrainSets(s, contourFun, g0, p, n, confirmed, unsure, confirmed', evaluated, work - {c})
  {
  }

  lemma DrainEvaluate(s: GridSetup, contourFun: real, g0: Grid, p: Pass, n: int, confirmed: set<Cell>, unsure: set<Cell>,
                      confirmed': set<Cell>, evaluated: set<Cell>, work: set<Cell>, c: Cell, flipped: bool)
    requires DrainSets(s, contourFun, g0, p, n, confirmed, unsure, confirmed', evaluated, work)
    requires c in work && InGrid(c, n, n) && c !in confirmed' && flipped == FlipsAt(s, contourFun, g0, c)
    ensures DrainSets(s, contourFun, g0, p, n, confirmed, unsure, confirmed' + {c}, evaluated + {c},
                      work - {c} + (if flipped then NeighbourSet(p, c) else {}))
  {
    if flipped && OnLattice(p, n, unsure) {
      NeighboursOnLattice(p, n, c);
    }
  }

  /** The grid during the worklist loop: the evaluated cells hold their cost
      and every other cell still holds its value `g0` from before the loop. */
  ghost predicate DrainGrid(s: GridSetup, grid: array2<real>, g0: Grid, evaluated: set<Cell>)
    reads grid
  {
    grid.Length0 == grid.Length1 == |s.xValues| == |s.yValues| && |g0| == grid.Length0
    && (forall a :: 0 <= a < |g0| ==> |g0[a]| == grid.Length1)
    && forall a, b :: 0 <= a < grid.Length0 && 0 <= b < grid.Length1 ==>
      grid[a, b] == if (a, b) in evaluated then CellCost(s, (a, b)) else g0[a][b]
  }

  /** One evaluation of the worklist: a cell not yet confirmed (hence not yet
      evaluated) gets its cost, and exactly one cell joins the evaluated ones. */
  method EvaluateUnsure(s: GridSetup, grid: array2<real>, contourFun: real, c: Cell,
                        ghost g0: Grid, ghost evaluated: set<Cell>, ghost confirmed: set<Cell>)
    returns (flipped: bool)
    requires DrainGrid(s, grid, g0, evaluated) && InGrid(c, grid.Length0, grid.Length1)
    requires evaluated <= confirmed && c !in confirmed
    modifies grid
    ensures DrainGrid(s, grid, g0, evaluated + {c})
    ensures flipped == FlipsAt(s, contourFun, g0, c)
    ensures |evaluated + {c}| == |evaluated| + 1
  {
    flipped := Reevaluate(s, grid, contourFun, c);
  }

  /** Work off the unsure list (lines 365-392): every cell on it, and every
      neighbour of a cell whose value flipped sides, gets its cost unless it is
      out of the grid or already confirmed. The order in which `set.pop`
      returns cells is left open; the result holds for every order.
      `evaluations` counts the cost evaluations: one per evaluated cell, so no
      cell is evaluated twice in a pass. */
  method Drain(s: GridSetup, grid: array2<real>, contourFun: real, p: Pass, confirmed: set<Cell>, unsure: set<Cell>,
               ghost g0: Grid)
    returns (confirmed': set<Cell>, ghost evaluated: set<Cell>, ghost evaluations: nat)
    requires grid.Length0 == grid.Length1 == |s.xValues| == |s.yValues| && g0 == Snapshot(grid)
    modifies grid
    ensures evaluated !! confirmed && confirmed' == confirmed + evaluated
    ensures evaluations == |evaluated|
    ensures forall c :: c in evaluated ==> InGrid(c, grid.Length0, grid.Length0)
    ensures DrainGrid(s, grid, g0, evaluated)
    ensures forall c :: c in unsure && InGrid(c, grid.Length0, grid.Length0) ==> c in confirmed'
    ensures forall c, d ::
      (c in evaluated && FlipsAt(s, contourFun, g0, c)
       && d in NeighbourSet(p, c) && InGrid(d, grid.Length0, grid.Length0)) ==> d in confirmed'
    ensures forall c :: c in evaluated ==> c in unsure || exists d ::
      d in evaluated && FlipsAt(s, contourFun, g0, d) && c in NeighbourSet(p, d)
    ensures OnLattice(p, grid.Length0, unsure) ==> forall c :: c in evaluated ==> PassPoint(p, c)
  {
    var n := grid.Length0;
    var work := unsure;
    confirmed', evaluated, evaluations := confirmed, {}, 0;
    assert DrainGrid(s, grid, g0, evaluated);
    while work != {}
      invariant DrainSets(s, contourFun, g0, p, n, confirmed, unsure, confirmed', evaluated, work)
      invariant evaluations == |evaluated|
      invariant DrainGrid(s, grid, g0, evaluated)
      decreases Cells(n) - confirmed', work
    {
      var c :| c in work;
      if c.0 < 0 || c.0 >= n || c.1 < 0 || c.1 >= n || c in confirmed' {
        DrainSkip(s, contourFun, g0, p, n, confirmed, unsure, confirmed', evaluated, work, c);
        work := work - {c};
      } else {
        var flipped := EvaluateUnsure(s, grid, contourFun, c, g0, evaluated, confirmed');
        DrainEvaluate(s, contourFun, g0, p, n, confirmed, unsure, confirmed', evaluated, work, c, flipped);
        work := work - {c} + (if flipped then NeighbourSet(p, c) else {});
        confirmed' := confirmed' + {c};
        evaluated := evaluated + {c};
        evaluations := evaluations + 1;
      }
    }
  }

  // ---------------------------------------------------------------------------
  // The schedule of passes (lines 326-397)

  /** The pass after `p`: an even pass halves `_x_step`, an odd pass halves `_y_step`. */
  function NextPass(p: Pass): Pass {
    if p.even then Pass(false, p.xStep / 2, p.yStep) else Pass(true, p.xStep, p.yStep / 2)
  }

  /** Cell `c` lies on the lattice that the passes before `q` have filled
      in: for an even `q`, both coordinates are multiples of its stride; for an
      odd `q`, both are multiples of `_x_step` and agree modulo `_y_step`. */
  predicate Settled(c: Cell, q: Pass) {
    q.xStep >= 1 && q.yStep >= 1 &&
    if q.even then c.0 % q.xStep == 0 && c.1 % q.yStep == 0
    else c.0 % q.xStep == 0 && c.1 % q.xStep == 0 && c.0 % q.yStep == c.1 % q.yStep
  }

  /** A pass never visits a settled cell. */
  lemma SettledNotVisited(q: Pass, n: int, c: Cell)
    requires ValidPass(q, n) && Settled(c, q)
    ensures !PassPoint(q, c)
  {
  }

  /** After a pass, its own cells are settled too, and so are the cells that
      were settled before it. */
  lemma SettledNext(q: Pass, n: int, c: Cell)
    requires ValidPass(q, n) && (Settled(c, q) || PassPoint(q, c))
    requires NextPass(q).xStep >= 1 && NextPass(q).yStep >= 1
    ensures Settled(c, NextPass(q))
  {
    var h := q.xStep / 2;
    if q.even {
      assert q.yStep == 2 * h;
      EvenToOdd(h, q.yStep, c.0, c.1);
    } else {
      OddToEven(q.xStep, q.yStep, c.0, c.1);
    }
  }

  lemma EvenToOdd(h: int, m: int, a: int, b: int)
    requires h >= 1 && m == 2 * h
    requires (a % m == 0 && b % m == 0) || (a % m == h && b % m == h)
    ensures a % h == 0 && b % h == 0 && a % m == b % m
  {
    HalfResidue(a, h);
    HalfResidue(b, h);
  }

  lemma OddToEven(h: int, m: int, a: int, b: int)
    requires h >= 1 && m == 2 * h
    requires (a % h == 0 && b % h == 0) || (a % m == 0 && b % m == h) || (a % m == h && b % m == 0)
    ensures a % h == 0 && b % h == 0
  {
    if !(a % h == 0 && b % h == 0) {
      HalfResidue(a, h);
      HalfResidue(b, h);
    }
  }

  /** The cells a pass puts on the unsure list around one of its cells are
      cells of the same pass. */
  lemma NeighboursOnLattice(p: Pass, n: int, c: Cell)
    requires ValidPass(p, n) && PassPoint(p, c)
    ensures forall d :: d in NeighbourSet(p, c) ==> PassPoint(p, d)
  {
    var (x, y) := c;
    if p.even {
      StepKeepsResidue(x, p.xStep);
      StepBackKeepsResidue(x, p.xStep);
      StepKeepsResidue(y, p.yStep);
      StepBackKeepsResidue(y, p.yStep);
    } else {
      assert p.yStep / 2 == p.xStep;
      HalfShift(x, p.xStep);
      HalfShift(y, p.xStep);
    }
  }

  /** The cells of the coarse pass: both coordinates are multiples of its stride. */
  predicate Coarse(c: Cell, stride: int) {
    stride >= 1 && c.0 % stride == 0 && c.1 % stride == 0
  }

  /** At the start of a pass, the grid is the pass's value snapshot. */
  lemma StartProgress(s: GridSetup, contourFun: real, g: Grid, p: Pass, grid: array2<real>)
    requires PassReady(s, g, p) && g == Snapshot(grid) && grid.Length1 == grid.Length0
    ensures PassProgress(s, contourFun, g, p, grid, 0, 0)
  {
  }

  /** Every in-grid cell a pass puts on the unsure list is one of its cells. */
  lemma PassUnsureOnLattice(s: GridSetup, contourFun: real, g: Grid, p: Pass)
    requires PassReady(s, g, p)
    ensures OnLattice(p, |g|, NeighbourCells(p, Evaluated(s, contourFun, g, p, |g|, 0)))
  {
    var e := Evaluated(s, contourFun, g, p, |g|, 0);
    forall d | d in NeighbourCells(p, e)
      ensures PassPoint(p, d)
    {
      var c :| c in e && d in NeighbourSet(p, c);
      NeighboursOnLattice(p, |g|, c);
    }
  }

  /** The effect of one round on cell `(a, b)` of `grid`, from the values `g`
      before it: off the pass the cell keeps its value; a cell of `fixed` (the
      confirmed cells) or of the coarse lattice holds its cost; any other cell
      of the pass holds its pass value, the shortcut's estimate from `g`. */
  ghost predicate RoundCell(s: GridSetup, contourFun: real, g: Grid, p: Pass, grid: array2<real>,
                            fixed: set<Cell>, stride: int, a: int, b: int)
    requires PassReady(s, g, p) && grid.Length0 == grid.Length1 == |g| && InGrid((a, b), |g|, |g|)
    reads grid
  {
    (!PassPoint(p, (a, b)) ==> grid[a, b] == g[a][b])
    && (PassPoint(p, (a, b)) && (a, b) !in fixed ==> grid[a, b] == PassValue(s, contourFun, g, p, (a, b)))
    && (((a, b) in fixed || Coarse((a, b), stride)) ==> grid[a, b] == CellCost(s, (a, b)))
  }

  /** The confirmed and coarse cells of `g` lie on the lattice settled before
      pass `p` and hold their costs. */
  ghost predicate SettledCosts(s: GridSetup, g: Grid, p: Pass, fixed: set<Cell>, stride: int) {
    forall a, b :: 0 <= a < |g| && 0 <= b < |g[a]| && a < |s.xValues| && b < |s.yValues| && ((a, b) in fixed || Coarse((a, b), stride)) ==>
      Settled((a, b), p) && g[a][b] == CellCost(s, (a, b))
  }

  /** `RoundCell` for every cell of the grid. */
  ghost predicate RoundGrid(s: GridSetup, contourFun: real, g: Grid, p: Pass, grid: array2<real>,
                            fixed: set<Cell>, stride: int)
    requires PassReady(s, g, p) && grid.Length0 == grid.Length1 == |g|
    reads grid
  {
    forall a, b :: 0 <= a < |g| && 0 <= b < |g| ==> RoundCell(s, contourFun, g, p, grid, fixed, stride, a, b)
  }

  /** What one round (a pass and the unsure list after it) does to one cell:
      `g` holds the values before the pass, `g1` those after it, and `grid`
      the values after the unsure list. */
  lemma RoundValues(s: GridSetup, contourFun: real, g: Grid, p: Pass, g1: Grid, grid: array2<real>,
                    confirmed: set<Cell>, evaluated: set<Cell>, confirmed': set<Cell>, stride: int, a: int, b: int)
    requires PassReady(s, g, p) && GridProgress(s, contourFun, g, p, g1, |g|, 0)
    requires grid.Length0 == grid.Length1 == |g| && InGrid((a, b), |g|, |g|)
    requires DrainGrid(s, grid, g1, evaluated)
    requires forall c :: c in evaluated ==> PassPoint(p, c)
    requires ((a, b) in confirmed || Coarse((a, b), stride)) ==> Settled((a, b), p) && g[a][b] == CellCost(s, (a, b))
    requires confirmed' == confirmed + Evaluated(s, contourFun, g, p, |g|, 0) + evaluated
    ensures RoundCell(s, contourFun, g, p, grid, confirmed', stride, a, b)
  {
    if (a, b) in confirmed || Coarse((a, b), stride) {
      SettledNotVisited(p, |g|, (a, b));
    }
  }

  /** `RoundValues` for every cell of the grid. */
  lemma RoundCells(s: GridSetup, contourFun: real, g: Grid, p: Pass, g1: Grid, grid: array2<real>,
                   confirmed: set<Cell>, evaluated: set<Cell>, confirmed': set<Cell>, stride: int)
    requires PassReady(s, g, p) && GridProgress(s, contourFun, g, p, g1, |g|, 0)
    requires grid.Length0 == grid.Length1 == |g|
    requires DrainGrid(s, grid, g1, evaluated)
    requires forall c :: c in evaluated ==> InGrid(c, |g|, |g|) && PassPoint(p, c)
    requires forall c :: c in confirmed ==> InGrid(c, |g|, |g|)
    requires SettledCosts(s, g, p, confirmed, stride)
    requires confirmed' == confirmed + Evaluated(s, contourFun, g, p, |g|, 0) + evaluated
    ensures confirmed <= confirmed' && forall c :: c in confirmed' ==> InGrid(c, grid.Length0, grid.Length0)
    ensures forall c :: c in confirmed' - confirmed ==> PassPoint(p, c)
    ensures RoundGrid(s, contourFun, g, p, grid, confirmed', stride)
  {
    forall a, b | 0 <= a < |g| && 0 <= b < |g|
      ensures RoundCell(s, contourFun, g, p, grid, confirmed', stride, a, b)
    {
      RoundValues(s, contourFun, g, p, g1, grid, confirmed, evaluated, confirmed', stride, a, b);
    }
  }

  /** A pass from its first cell to past its last (lines 329-363), seen
      from the values: `g1` holds the values it leaves. */
  method WholePass(s: GridSetup, grid: array2<real>, contourFun: real, ghost g: Grid, p: Pass, confirmed: set<Cell>)
    returns (confirmed': set<Cell>, unsure': set<Cell>, ghost g1: Grid)
    requires PassReady(s, g, p) && g == Snapshot(grid) && grid.Length1 == grid.Length0
    modifies grid
    ensures g1 == Snapshot(grid) && GridProgress(s, contourFun, g, p, g1, |g|, 0)
    ensures confirmed' == confirmed + Evaluated(s, contourFun, g, p, |g|, 0)
    ensures unsure' == NeighbourCells(p, Evaluated(s, contourFun, g, p, |g|, 0))
    ensures OnLattice(p, |g|, unsure')
  {
    StartProgress(s, contourFun, g, p, grid);
    confirmed', unsure' := RefinementPass(s, grid, contourFun, g, p, confirmed, {});
    g1 := Snapshot(grid);
    SnapshotProgress(s, contourFun, g, p, grid, |g|, 0);
    PassUnsureOnLattice(s, contourFun, g, p);
  }

  /** One round of the refinement loop (lines 327-397): a pass followed by the
      unsure list, starting from the values `g`. Cells off the pass keep their
      values; each cell of the pass ends with its cost or with the shortcut's
      estimate from `g`; confirmed and coarse cells hold their costs. */
  method RefineRound(s: GridSetup, grid: array2<real>, contourFun: real, p: Pass, confirmed: set<Cell>,
                     ghost g: Grid, ghost stride: int)
    returns (confirmed': set<Cell>)
    requires grid.Length0 == grid.Length1 == |s.xValues| == |s.yValues| && ValidPass(p, grid.Length0)
    requires g == Snapshot(grid)
    requires forall c :: c in confirmed ==> InGrid(c, grid.Length0, grid.Length0)
    requires SettledCosts(s, g, p, confirmed, stride)
    modifies grid
    ensures confirmed <= confirmed' && forall c :: c in confirmed' ==> InGrid(c, grid.Length0, grid.Length0)
    ensures forall c :: c in confirmed' - confirmed ==> PassPoint(p, c)
    ensures RoundGrid(s, contourFun, g, p, grid, confirmed', stride)
  {
    var confirmed1, unsure1, g1 := WholePass(s, grid, contourFun, g, p, confirmed);
    confirmed' := SettleRound(s, grid, contourFun, p, confirmed, confirmed1, unsure1, g, g1, stride);
  }

  /** The second half of a round: the unsure list left by the pass over `g`
      (which produced `g1`) is worked off, with the effect `RefineRound` states. */
  method SettleRound(s: GridSetup, grid: array2<real>, contourFun: real, p: Pass, confirmed: set<Cell>,
                     confirmed1: set<Cell>, unsure1: set<Cell>, ghost g: Grid, ghost g1: Grid, ghost stride: int)
    returns (confirmed': set<Cell>)
    requires grid.Length0 == grid.Length1 == |s.xValues| == |s.yValues| && PassReady(s, g, p)
    requires g1 == Snapshot(grid) && GridProgress(s, contourFun, g, p, g1, |g|, 0)
    requires confirmed1 == confirmed + Evaluated(s, contourFun, g, p, |g|, 0) && OnLattice(p, |g|, unsure1)
    requires forall c :: c in confirmed ==> InGrid(c, grid.Length0, grid.Length0)
    requires SettledCosts(s, g, p, confirmed, stride)
    modifies grid
    ensures confirmed <= confirmed' && forall c :: c in confirmed' ==> InGrid(c, grid.Length0, grid.Length0)
    ensures forall c :: c in confirmed' - confirmed ==> PassPoint(p, c)
    ensures RoundGrid(s, contourFun, g, p, grid, confirmed', stride)
  {
    ghost var evaluated;
    confirmed', evaluated := DrainOnLattice(s, grid, contourFun, p, confirmed1, unsure1, g1);
    RoundCells(s, contourFun, g, p, g1, grid, confirmed, evaluated, confirmed', stride);
  }

  /** What a round needs of `Drain`: which cells it evaluated, that they are
      cells of the pass, and the grid it leaves. */
  method DrainOnLattice(s: GridSetup, grid: array2<real>, contourFun: real, p: Pass, confirmed: set<Cell>,
                        unsure: set<Cell>, ghost g0: Grid)
    returns (confirmed': set<Cell>, ghost evaluated: set<Cell>)
    requires grid.Length0 == grid.Length1 == |s.xValues| == |s.yValues| && g0 == Snapshot(grid)
    requires OnLattice(p, grid.Length0, unsure)
    modifies grid
    ensures confirmed' == confirmed + evaluated
    ensures forall c :: c in evaluated ==> InGrid(c, grid.Length0, grid.Length0) && PassPoint(p, c)
    ensures DrainGrid(s, grid, g0, evaluated)
  {
    ghost var evaluations;
    confirmed', evaluated, evaluations := Drain(s, grid, contourFun, p, confirmed, unsure, g0);
  }

  // ---------------------------------------------------------------------------
  // The refinement loop (lines 324-397)

  /** The pass of round `k` when the coarse stride is `2 ** it`: rounds
      alternate even and odd, starting even, and each halves one stride. Round
      `2 * it` is where the loop stops, both strides being 1 then. */
  function Schedule(it: nat, k: nat): Pass
    requires k <= 2 * it
  {
    if k % 2 == 0 then Pass(true, Pow2(it - k / 2), Pow2(it - k / 2))
    else Pass(false, Pow2(it - k / 2 - 1), Pow2(it - k / 2))
  }

  /** The loop's condition `_x_step > 0 and _y_step > 1` holds exactly
      before round `2 * it`; each round is a valid pass; and halving the
      strides as lines 394-397 do moves on to the next round. */
  lemma ScheduleSteps(it: nat, k: nat, n: int)
    requires k <= 2 * it && Pow2(it) <= n - 1
    ensures Schedule(it, k).xStep >= 1 && Schedule(it, k).yStep >= 1
    ensures Schedule(it, k).even <==> k % 2 == 0
    ensures Schedule(it, k).xStep > 0 && Schedule(it, k).yStep > 1 <==> k < 2 * it
    ensures k < 2 * it ==> ValidPass(Schedule(it, k), n) && NextPass(Schedule(it, k)) == Schedule(it, k + 1)
  {
    var j := k / 2;
    if k < 2 * it {
      assert Pow2(it - j) == 2 * Pow2(it - j - 1);
      Pow2Monotone(it - j, it);
      if k % 2 == 1 {
        assert (k + 1) / 2 == j + 1;
      }
    } else {
      assert Schedule(it, k) == Pass(true, 1, 1);
    }
  }

  /** The converse of `SettledNext`: a cell settled after a pass was settled
      before it or is one of its cells. */
  lemma SettledBefore(q: Pass, n: int, c: Cell)
    requires ValidPass(q, n) && Settled(c, NextPass(q))
    ensures Settled(c, q) || PassPoint(q, c)
  {
    var h := q.xStep / 2;
    if q.even {
      assert q.yStep == 2 * h;
      DoubleResidue(c.0, h);
      DoubleResidue(c.1, h);
    } else {
      DoubleResidue(c.0, q.xStep);
      DoubleResidue(c.1, q.xStep);
    }
  }

  /** Value `v` is what cell `c` can hold once filled in: its cost, if it lies
      on the coarse lattice; otherwise it is a cell of some round `j` and `v`
      is its cost or the estimate that round's shortcut made from the grid
      `history[j]` the round started with. */
  ghost predicate Filled(s: GridSetup, contourFun: real, it: nat, history: seq<Grid>, c: Cell, v: real) {
    InGrid(c, |s.xValues|, |s.yValues|) &&
    ((Coarse(c, Pow2(it)) && v == CellCost(s, c))
     || exists j :: 0 <= j < |history| && FilledBy(s, contourFun, it, j, history[j], c, v))
  }

  /** Round `j`, which found the values `g`, visited `c` and left `v` there:
      its cost, or its pass value from `g` (the shortcut's estimate, or the
      cost where the shortcut gives up). */
  ghost predicate FilledBy(s: GridSetup, contourFun: real, it: nat, j: nat, g: Grid, c: Cell, v: real) {
    j < 2 * it && PassReady(s, g, Schedule(it, j))
    && PassPoint(Schedule(it, j), c) && InGrid(c, |g|, |g|)
    && (v == CellCost(s, c) || v == PassValue(s, contourFun, g, Schedule(it, j), c))
  }

  /** What holds at the start of round `k`, in the values `g`: confirmed and
      coarse cells are settled and hold their costs; settled cells are filled
      in; all other cells still hold their values `g0` from before the loop. */
  ghost predicate RefineInvariant(s: GridSetup, contourFun: real, it: nat, k: nat, history: seq<Grid>,
                                  g0: Grid, g: Grid, confirmed: set<Cell>) {
    k <= 2 * it && |history| == k && |g| == |g0| == |s.xValues| == |s.yValues|
    && Rectangular(g) && Cols(g) == |g| && Rectangular(g0) && Cols(g0) == |g|
    && forall a, b :: 0 <= a < |g| && 0 <= b < |g| ==>
         (((a, b) in confirmed || Coarse((a, b), Pow2(it))) ==> Settled((a, b), Schedule(it, k)) && g[a][b] == CellCost(s, (a, b)))
         && (Settled((a, b), Schedule(it, k)) ==> Filled(s, contourFun, it, history, (a, b), g[a][b]))
         && (!Settled((a, b), Schedule(it, k)) ==> g[a][b] == g0[a][b])
  }

  /** What one round does, in values: `RefineRound`'s postcondition. */
  ghost predicate RoundEffect(s: GridSetup, contourFun: real, p: Pass, stride: int, g: Grid, g': Grid,
                              confirmed: set<Cell>, confirmed': set<Cell>)
    requires PassReady(s, g, p)
  {
    |g'| == |g| && Rectangular(g') && Cols(g') == |g|
    && confirmed <= confirmed' && (forall c :: c in confirmed' - confirmed ==> PassPoint(p, c))
    && forall a, b :: 0 <= a < |g| && 0 <= b < |g| ==>
         (!PassPoint(p, (a, b)) ==> g'[a][b] == g[a][b])
         && (PassPoint(p, (a, b)) && (a, b) !in confirmed' ==> g'[a][b] == PassValue(s, contourFun, g, p, (a, b)))
         && (((a, b) in confirmed' || Coarse((a, b), stride)) ==> g'[a][b] == CellCost(s, (a, b)))
  }

  /** Before the first round the invariant holds with nothing confirmed. */
  lemma RefineStart(s: GridSetup, contourFun: real, it: nat, g0: Grid)
    requires |g0| == |s.xValues| == |s.yValues| && Rectangular(g0) && Cols(g0) == |g0| && Pow2(it) <= |g0| - 1
    requires forall a, b :: 0 <= a < |g0| && 0 <= b < |g0| && Coarse((a, b), Pow2(it)) ==> g0[a][b] == CellCost(s, (a, b))
    ensures RefineInvariant(s, contourFun, it, 0, [], g0, g0, {})
  {
  }

  /** A filled-in value stays filled in when the history grows. */
  lemma FilledLonger(s: GridSetup, contourFun: real, it: nat, history: seq<Grid>, g: Grid, c: Cell, v: real)
    requires Filled(s, contourFun, it, history, c, v)
    ensures Filled(s, contourFun, it, history + [g], c, v)
  {
    if !(Coarse(c, Pow2(it)) && v == CellCost(s, c)) {
      var j :| 0 <= j < |history| && FilledBy(s, contourFun, it, j, history[j], c, v);
      assert (history + [g])[j] == history[j];
    }
  }

  /** One round keeps the invariant, one cell at a time. */
  lemma RoundKeepsCell(s: GridSetup, contourFun: real, it: nat, k: nat, history: seq<Grid>, g0: Grid, g: Grid, g': Grid,
                       confirmed: set<Cell>, confirmed': set<Cell>, a: int, b: int)
    requires RefineInvariant(s, contourFun, it, k, history, g0, g, confirmed) && k < 2 * it && Pow2(it) <= |g| - 1
    requires PassReady(s, g, Schedule(it, k))
    requires RoundEffect(s, contourFun, Schedule(it, k), Pow2(it), g, g', confirmed, confirmed')
    requires 0 <= a < |g| && 0 <= b < |g|
    ensures ((a, b) in confirmed' || Coarse((a, b), Pow2(it))) ==> Settled((a, b), Schedule(it, k + 1)) && g'[a][b] == CellCost(s, (a, b))
    ensures Settled((a, b), Schedule(it, k + 1)) ==> Filled(s, contourFun, it, history + [g], (a, b), g'[a][b])
    ensures !Settled((a, b), Schedule(it, k + 1)) ==> g'[a][b] == g0[a][b]
  {
    var p, n, c := Schedule(it, k), |g|, (a, b);
    ScheduleSteps(it, k, n);
    ScheduleSteps(it, k + 1, n);
    if Settled(c, p) || PassPoint(p, c) {
      SettledNext(p, n, c);
    }
    if Settled(c, NextPass(p)) {
      SettledBefore(p, n, c);
      if PassPoint(p, c) {
        var h := history + [g];
        assert h[k] == g && FilledBy(s, contourFun, it, k, g, c, g'[a][b]);
        assert Filled(s, contourFun, it, h, c, g'[a][b]);
      } else {
        FilledLonger(s, contourFun, it, history, g, c, g[a][b]);
      }
    }
  }

  lemma RoundKeeps(s: GridSetup, contourFun: real, it: nat, k: nat, history: seq<Grid>, g0: Grid, g: Grid, g': Grid,
                   confirmed: set<Cell>, confirmed': set<Cell>)
    requires RefineInvariant(s, contourFun, it, k, history, g0, g, confirmed) && k < 2 * it && Pow2(it) <= |g| - 1
    requires PassReady(s, g, Schedule(it, k))
    requires RoundEffect(s, contourFun, Schedule(it, k), Pow2(it), g, g', confirmed, confirmed')
    ensures RefineInvariant(s, contourFun, it, k + 1, history + [g], g0, g', confirmed')
  {
    forall a, b | 0 <= a < |g| && 0 <= b < |g|
      ensures ((a, b) in confirmed' || Coarse((a, b), Pow2(it))) ==> Settled((a, b), Schedule(it, k + 1)) && g'[a][b] == CellCost(s, (a, b))
      ensures Settled((a, b), Schedule(it, k + 1)) ==> Filled(s, contourFun, it, history + [g], (a, b), g'[a][b])
      ensures !Settled((a, b), Schedule(it, k + 1)) ==> g'[a][b] == g0[a][b]
    {
      RoundKeepsCell(s, contourFun, it, k, history, g0, g, g', confirmed, confirmed', a, b);
    }
  }

  /** After the last round every cell is settled, hence filled in. */
  lemma RefineEnd(s: GridSetup, contourFun: real, it: nat, history: seq<Grid>, g0: Grid, g: Grid, confirmed: set<Cell>)
    requires RefineInvariant(s, contourFun, it, 2 * it, history, g0, g, confirmed)
    ensures forall a, b :: 0 <= a < |g| && 0 <= b < |g| ==> Filled(s, contourFun, it, history, (a, b), g[a][b])
  {
    assert Schedule(it, 2 * it) == Pass(true, 1, 1);
  }

  /** `RefineRound`'s postcondition, read off the array. */
  lemma RoundEffectOf(s: GridSetup, contourFun: real, p: Pass, stride: int, g: Grid, grid: array2<real>,
                      confirmed: set<Cell>, confirmed': set<Cell>)
    requires PassReady(s, g, p) && grid.Length0 == grid.Length1 == |g|
    requires confirmed <= confirmed' && forall c :: c in confirmed' - confirmed ==> PassPoint(p, c)
    requires RoundGrid(s, contourFun, g, p, grid, confirmed', stride)
    ensures RoundEffect(s, contourFun, p, stride, g, Snapshot(grid), confirmed, confirmed')
  {
    var g' := Snapshot(grid);
    forall a, b | 0 <= a < |g| && 0 <= b < |g|
      ensures !PassPoint(p, (a, b)) ==> g'[a][b] == g[a][b]
      ensures PassPoint(p, (a, b)) && (a, b) !in confirmed' ==> g'[a][b] == PassValue(s, contourFun, g, p, (a, b))
      ensures ((a, b) in confirmed' || Coarse((a, b), stride)) ==> g'[a][b] == CellCost(s, (a, b))
    {
      assert RoundCell(s, contourFun, g, p, grid, confirmed', stride, a, b);
      assert g'[a][b] == grid[a, b];
    }
  }

  /** A run of rounds: `trace[k]` is the grid as round `k` found it and
      `trace[k + 1]` the grid it left, `confirmed[k]` the cells confirmed
      before round `k` (none before the first), and each round has the effect
      `RoundEffect` states, for the pass the schedule gives it. */
  ghost predicate RoundsTrace(s: GridSetup, contourFun: real, it: nat, trace: seq<Grid>, confirmed: seq<set<Cell>>) {
    1 <= |trace| <= 2 * it + 1 && |confirmed| == |trace| && confirmed[0] == {}
    && forall k :: 0 <= k < |trace| - 1 ==>
         PassReady(s, trace[k], Schedule(it, k))
         && RoundEffect(s, contourFun, Schedule(it, k), Pow2(it), trace[k], trace[k + 1], confirmed[k], confirmed[k + 1])
  }

  /** The grid `FillGrid` starts the rounds from: costs on the coarse lattice
      of stride `stride`, the marker -1 everywhere else. */
  ghost predicate IsStartGrid(s: GridSetup, g: Grid, stride: int) {
    |g| == |s.xValues| == |s.yValues| && Rectangular(g) && Cols(g) == |g|
    && forall a, b :: 0 <= a < |g| && 0 <= b < |g| ==>
         g[a][b] == if Coarse((a, b), stride) then CellCost(s, (a, b)) else -1.0
  }

  /** One more round extends a run of rounds. */
  lemma RoundsTraceStep(s: GridSetup, contourFun: real, it: nat, trace: seq<Grid>, confirmed: seq<set<Cell>>,
                        g': Grid, confirmed': set<Cell>)
    requires RoundsTrace(s, contourFun, it, trace, confirmed) && |trace| <= 2 * it
    requires PassReady(s, trace[|trace| - 1], Schedule(it, |trace| - 1))
    requires RoundEffect(s, contourFun, Schedule(it, |trace| - 1), Pow2(it), trace[|trace| - 1], g',
                         confirmed[|trace| - 1], confirmed')
    ensures RoundsTrace(s, contourFun, it, trace + [g'], confirmed + [confirmed'])
  {
    var t, c := trace + [g'], confirmed + [confirmed'];
    forall k | 0 <= k < |t| - 1
      ensures PassReady(s, t[k], Schedule(it, k))
              && RoundEffect(s, contourFun, Schedule(it, k), Pow2(it), t[k], t[k + 1], c[k], c[k + 1])
    {
      assert t[k] == trace[k] && c[k] == confirmed[k];
      if k < |trace| - 1 {
        assert t[k + 1] == trace[k + 1] && c[k + 1] == confirmed[k + 1];
      }
    }
  }

  /** One round of the refinement loop (lines 326-397), keeping the loop's
      invariants. */
  method RefineStep(s: GridSetup, grid: array2<real>, contourFun: real, it: nat, round: nat, p: Pass,
                    ghost history: seq<Grid>, ghost g0: Grid, confirmed: set<Cell>, ghost confirmedSets: seq<set<Cell>>)
    returns (confirmed': set<Cell>)
    requires grid.Length0 == grid.Length1 == |s.xValues| == |s.yValues| && Pow2(it) <= grid.Length0 - 1
    requires round < 2 * it && p == Schedule(it, round)
    requires RefineInvariant(s, contourFun, it, round, history, g0, Snapshot(grid), confirmed)
    requires forall c :: c in confirmed ==> InGrid(c, grid.Length0, grid.Length0)
    requires |confirmedSets| == round + 1 && confirmedSets[round] == confirmed
    requires RoundsTrace(s, contourFun, it, history + [Snapshot(grid)], confirmedSets)
    modifies grid
    ensures RefineInvariant(s, contourFun, it, round + 1, history + [old(Snapshot(grid))], g0, Snapshot(grid), confirmed')
    ensures forall c :: c in confirmed' ==> InGrid(c, grid.Length0, grid.Length0)
    ensures RoundsTrace(s, contourFun, it, history + [old(Snapshot(grid))] + [Snapshot(grid)], confirmedSets + [confirmed'])
  {
    ghost var n := grid.Length0;
    ScheduleSteps(it, round, n);
    ghost var g := Snapshot(grid);
    confirmed' := RefineRound(s, grid, contourFun, p, confirmed, g, Pow2(it));
    RoundEffectOf(s, contourFun, p, Pow2(it), g, grid, confirmed, confirmed');
    RoundKeeps(s, contourFun, it, round, history, g0, g, Snapshot(grid), confirmed, confirmed');
    RoundsTraceStep(s, contourFun, it, history + [g], confirmedSets, Snapshot(grid), confirmed');
  }

  /** The refinement loop (lines 324-397): rounds of passes with halving
      strides until both are 1. The coarse cells keep their costs; every cell
      ends filled in, with its cost or the estimate of the round that visited
      it. `history[k]` is the grid as round `k` found it, the first being the
      grid given, and `confirmedSets[k]` the cells confirmed before it; each
      round has the effect `RoundEffect` states, the last leaving the grid
      returned. */
  method Refine(s: GridSetup, grid: array2<real>, contourFun: real, it: nat)
    returns (ghost history: seq<Grid>, ghost confirmedSets: seq<set<Cell>>)
    requires grid.Length0 == grid.Length1 == |s.xValues| == |s.yValues| && Pow2(it) <= grid.Length0 - 1
    requires forall a, b :: 0 <= a < grid.Length0 && 0 <= b < grid.Length0 && Coarse((a, b), Pow2(it)) ==>
      grid[a, b] == CellCost(s, (a, b))
    modifies grid
    ensures |history| == 2 * it
    ensures (history + [Snapshot(grid)])[0] == old(Snapshot(grid))
    ensures RoundsTrace(s, contourFun, it, history + [Snapshot(grid)], confirmedSets)
    ensures forall a, b :: 0 <= a < grid.Length0 && 0 <= b < grid.Length0 && Coarse((a, b), Pow2(it)) ==>
      grid[a, b] == CellCost(s, (a, b))
    ensures forall a, b :: 0 <= a < grid.Length0 && 0 <= b < grid.Length0 ==>
      Filled(s, contourFun, it, history, (a, b), grid[a, b])
  {
    ghost var n := grid.Length0;
    ghost var g0 := Snapshot(grid);
    RefineStart(s, contourFun, it, g0);
    var xStep, yStep := Pow2(it), Pow2(it);
    var round := 0;
    var confirmed := {};
    history, confirmedSets := [], [{}];
    ScheduleSteps(it, 0, n);
    while xStep > 0 && yStep > 1
      invariant round <= 2 * it && xStep == Schedule(it, round).xStep && yStep == Schedule(it, round).yStep
      invariant Schedule(it, round).even <==> round % 2 == 0
      invariant (xStep > 0 && yStep > 1) <==> round < 2 * it
      invariant RefineInvariant(s, contourFun, it, round, history, g0, Snapshot(grid), confirmed)
      invariant forall c :: c in confirmed ==> InGrid(c, n, n)
      invariant |confirmedSets| == round + 1 && confirmedSets[round] == confirmed
      invariant (history + [Snapshot(grid)])[0] == g0
      invariant RoundsTrace(s, contourFun, it, history + [Snapshot(grid)], confirmedSets)
      decreases 2 * it - round
    {
      var p := Pass(round % 2 == 0, xStep, yStep);
      assert p == Schedule(it, round);
      ScheduleSteps(it, round, n);
      ghost var g := Snapshot(grid);
      var confirmed' := RefineStep(s, grid, contourFun, it, round, p, history, g0, confirmed, confirmedSets);
      history, confirmedSets := history + [g], confirmedSets + [confirmed'];
      confirmed := confirmed';
      if round % 2 == 0 {
        xStep := xStep / 2;
      } else {
        yStep := yStep / 2;
      }
      round := round + 1;
      ScheduleSteps(it, round, n);
    }
    RefineEnd(s, contourFun, it, history, g0, Snapshot(grid), confirmed);
  }

  // ---------------------------------------------------------------------------
  // Cropping (lines 399-432)

  /** The grid with rows and columns exchanged, for a grid of `cols` columns
      (numpy's `.T`, which keeps the column count of a grid without rows). */
  function Transpose(g: Grid, cols: nat): (t: Grid)
    requires forall i :: 0 <= i < |g| ==> |g[i]| == cols
    ensures |t| == cols && Rectangular(t) && (cols > 0 ==> Cols(t) == |g|)
    ensures forall j, i :: 0 <= j < cols && 0 <= i < |g| ==> t[j][i] == g[i][j]
  {
    seq(cols, j requires 0 <= j < cols => seq(|g|, i requires 0 <= i < |g| => g[i][j]))
  }

  /** A row reaches the contour level when one of its values is at or below
      it. */
  predicate Reaches(row: seq<real>, level: real)
    decreases |row|
  {
    |row| > 0 && (row[0] <= level || Reaches(row[1..], level))
  }

  /** A row reaches the level exactly when its minimum (`np.min`) is at or
      below it. */
  lemma {:induction false} ReachesMin(row: seq<real>, level: real)
    requires |row| > 0
    ensures Reaches(row, level) <==> Min(row) <= level
    decreases |row|
  {
    if |row| > 1 {
      ReachesMin(row[1..], level);
    }
  }

  /** `reach` says for each row whether it reaches the level. */
  predicate Flags(rows: Grid, level: real, reach: seq<bool>) {
    |reach| == |rows| && forall k :: 0 <= k < |rows| ==> reach[k] == Reaches(rows[k], level)
  }

  /** For each row, whether it reaches the level. */
  function RowsReaching(rows: Grid, level: real): (reach: seq<bool>)
    ensures Flags(rows, level, reach)
  {
    seq(|rows|, k requires 0 <= k < |rows| => Reaches(rows[k], level))
  }

  /** Column `y` of the rows `g[lo..hi]` reaches the level. */
  predicate ColumnReaches(g: Grid, lo: nat, hi: int, y: nat, level: real)
    requires Rectangular(g) && y < Cols(g) && hi <= |g|
    decreases hi - lo
  {
    lo < hi && (g[lo][y] <= level || ColumnReaches(g, lo + 1, hi, y, level))
  }

  /** `ColumnReaches` holds exactly when some row from `lo` below `hi` has a
      value at or below the level in column `y`. */
  lemma {:induction false} ColumnReachesSome(g: Grid, lo: nat, hi: int, y: nat, level: real)
    requires Rectangular(g) && y < Cols(g) && hi <= |g|
    ensures ColumnReaches(g, lo, hi, y, level) <==> exists x :: lo <= x < hi && g[x][y] <= level
    decreases hi - lo
  {
    if lo < hi {
      ColumnReachesSome(g, lo + 1, hi, y, level);
    }
  }

  /** For each column of the rows `g[x0:x1]`, whether it reaches the level:
      the rows of the transposed slice that line 416 scans. */
  function ColumnsReaching(g: Grid, x0: int, x1: int, level: real): (reach: seq<bool>)
    requires Rectangular(g)
    ensures |reach| == Cols(g)
  {
    seq(Cols(g), y requires 0 <= y < Cols(g) => ColumnReaches(g, SliceIndex(x0, |g|), SliceIndex(x1, |g|), y, level))
  }

  /** From row `k` down, the first row that reaches the level, or row 0: the
      row the loop of lines 405-406 stops at. */
  function LastReaching(reach: seq<bool>, k: nat): nat
    requires k < |reach|
    decreases k
  {
    if k > 0 && !reach[k] then LastReaching(reach, k - 1) else k
  }

  /** `LastReaching` is the highest row up to `k` that reaches the level, or
      row 0 when none does. */
  lemma {:induction false} LastReachingMeaning(reach: seq<bool>, k: nat)
    requires k < |reach|
    ensures var r := LastReaching(reach, k);
      r <= k && (r == 0 || reach[r]) && forall i :: r < i <= k ==> !reach[i]
    decreases k
  {
    if k > 0 && !reach[k] {
      LastReachingMeaning(reach, k - 1);
    }
  }

  /** From row `k` up, the first row that reaches the level, stopping at row
      `upper`: the row the loop of lines 410-411 stops at. */
  function FirstReaching(reach: seq<bool>, k: nat, upper: int): nat
    requires upper < |reach|
    decreases upper - k
  {
    if k < upper && !reach[k] then FirstReaching(reach, k + 1, upper) else k
  }

  /** `FirstReaching` is the lowest row from `k` below `upper` that reaches
      the level, or `upper` when none does (or `k` when it is not below). */
  lemma {:induction false} FirstReachingMeaning(reach: seq<bool>, k: nat, upper: int)
    requires upper < |reach|
    ensures var r := FirstReaching(reach, k, upper);
      k <= r && (r == k || r <= upper) && (r < upper ==> reach[r]) && forall i :: k <= i < r ==> !reach[i]
    decreases upper - k
  {
    if k < upper && !reach[k] {
      FirstReachingMeaning(reach, k + 1, upper);
    }
  }

  /** The inclusive upper cutoff of lines 401-408 (or 418-422) for one axis
      whose rows reach the level as `reach` says: the last row reaching it
      plus the padding, at most the last row. */
  function UpperCutoff(reach: seq<bool>, padding: int): int
    requires |reach| >= 1
  {
    var up := LastReaching(reach, |reach| - 1) + padding;
    if up < |reach| - 1 then up else |reach| - 1
  }

  /** The lower cutoff of lines 409-413 (or 423-426): the first row reaching
      the level up to the upper cutoff, less the padding, at least 0. */
  function LowerCutoff(reach: seq<bool>, padding: int): int
    requires |reach| >= 1
  {
    var low := FirstReaching(reach, 0, UpperCutoff(reach, padding)) - padding;
    if low > 0 then low else 0
  }

  /** With no padding, when row `k` alone reaches the level both cutoffs are
      at `k`. */
  lemma OneRowCutoffs(reach: seq<bool>, k: nat)
    requires k < |reach| && reach[k]
    requires forall i :: 0 <= i < |reach| && i != k ==> !reach[i]
    ensures LowerCutoff(reach, 0) == k && UpperCutoff(reach, 0) == k
  {
    LastReachingMeaning(reach, |reach| - 1);
    FirstReachingMeaning(reach, 0, k);
  }

  /** Lines 405-406: from the last row down, the first row whose minimum is at
      or below the contour level, or row 0. numpy raises on the minimum of an
      empty row; all rows are equally long, so that happens exactly when there
      are no columns and the loop looks at a row at all. */
  method ScanDown(rows: Grid, contourFun: real, ghost reach: seq<bool>) returns (r: Result<int>)
    requires |rows| >= 1 && Rectangular(rows) && Flags(rows, contourFun, reach)
    ensures r.Err? <==> Cols(rows) == 0 && |rows| > 1
    ensures r.Err? ==> r.error == EmptyArrayMinimum
    ensures r.Ok? ==> 0 <= r.value < |rows| && (r.value == 0 || Min(rows[r.value]) <= contourFun)
    ensures r.Ok? ==> forall i :: r.value < i < |rows| ==> Min(rows[i]) > contourFun
    ensures r.Ok? ==> r.value == LastReaching(reach, |reach| - 1)
  {
    if |rows| > 1 && Cols(rows) == 0 {
      return Err(EmptyArrayMinimum);
    }
    var top := |rows| - 1;
    while top > 0 && Min(rows[top]) > contourFun
      invariant 0 <= top < |rows|
      invariant forall i :: top < i < |rows| ==> Min(rows[i]) > contourFun
      invariant LastReaching(reach, |reach| - 1) == LastReaching(reach, top)
    {
      ReachesMin(rows[top], contourFun);
      top := top - 1;
    }
    if top > 0 {
      ReachesMin(rows[top], contourFun);
    }
    return Ok(top);
  }

  /** Lines 410-411: from row 0 up, the first row whose minimum is at or below
      the contour level, stopping at row `right`. */
  method ScanUp(rows: Grid, contourFun: real, right: int, ghost reach: seq<bool>) returns (r: Result<int>)
    requires Rectangular(rows) && right < |rows| && Flags(rows, contourFun, reach)
    ensures r.Err? <==> Cols(rows) == 0 && right > 0
    ensures r.Err? ==> r.error == EmptyArrayMinimum
    ensures r.Ok? && right <= 0 ==> r.value == 0
    ensures r.Ok? && right > 0 ==> 0 <= r.value <= right && (r.value == right || Min(rows[r.value]) <= contourFun)
    ensures r.Ok? ==> forall i :: 0 <= i < r.value ==> Min(rows[i]) > contourFun
    ensures r.Ok? ==> r.value == FirstReaching(reach, 0, right)
  {
    if right > 0 && Cols(rows) == 0 {
      return Err(EmptyArrayMinimum);
    }
    var bottom := 0;
    while bottom < right && Min(rows[bottom]) > contourFun
      invariant 0 <= bottom && (bottom == 0 || bottom <= right)
      invariant forall i :: 0 <= i < bottom ==> |rows[i]| > 0 && Min(rows[i]) > contourFun
      invariant FirstReaching(reach, 0, right) == FirstReaching(reach, bottom, right)
    {
      ReachesMin(rows[bottom], contourFun);
      bottom := bottom + 1;
    }
    if bottom < right {
      ReachesMin(rows[bottom], contourFun);
    }
    return Ok(bottom);
  }

  /** Lines 401-412 (and 414-421 on the transposed grid): the inclusive
      window `(lower, upper)` of rows to keep. With a padding of at least 0,
      every row that reaches down to the contour level lies inside the window;
      the window extends `padding` rows beyond such rows, clamped to the
      grid: they are `LowerCutoff` and `UpperCutoff`. */
  method AxisCutoffs(rows: Grid, contourFun: real, padding: int, ghost reach: seq<bool>) returns (r: Result<(int, int)>)
    requires |rows| >= 1 && Rectangular(rows) && Flags(rows, contourFun, reach)
    ensures r.Err? <==> Cols(rows) == 0 && |rows| > 1
    ensures r.Err? ==> r.error == EmptyArrayMinimum
    ensures r.Ok? ==> 0 <= r.value.0 && r.value.1 <= |rows| - 1
    ensures r.Ok? && padding >= 0 ==> r.value.0 <= r.value.1
    ensures r.Ok? && padding >= 0 ==>
      forall k :: 0 <= k < |rows| && |rows[k]| > 0 && Min(rows[k]) <= contourFun ==> r.value.0 <= k <= r.value.1
    ensures r.Ok? && r.value.1 < |rows| - 1 ==>
      forall k :: 0 <= k < |rows| && r.value.1 - padding < k && |rows[k]| > 0 ==> Min(rows[k]) > contourFun
    ensures r.Ok? && r.value.0 > 0 ==>
      forall k :: 0 <= k < |rows| && k < r.value.0 + padding && |rows[k]| > 0 ==> Min(rows[k]) > contourFun
    ensures r.Ok? ==> r.value.0 == LowerCutoff(reach, padding) && r.value.1 == UpperCutoff(reach, padding)
  {
    var top :- ScanDown(rows, contourFun, reach);
    var upper := top + padding;
    upper := if upper < |rows| - 1 then upper else |rows| - 1;
    // The first scan has raised already if the rows are empty.
    var scan := ScanUp(rows, contourFun, upper, reach);
    var bottom := scan.value;
    var lower := bottom - padding;
    lower := if lower > 0 then lower else 0;
    CutoffsOfScans(reach, padding, top, upper, bottom, lower);
    return Ok((lower, upper));
  }

  /** The two cutoffs from the rows the two scans stop at. */
  lemma CutoffsOfScans(reach: seq<bool>, padding: int, top: int, upper: int, bottom: int, lower: int)
    requires |reach| >= 1 && top == LastReaching(reach, |reach| - 1)
    requires upper == if top + padding < |reach| - 1 then top + padding else |reach| - 1
    requires bottom == FirstReaching(reach, 0, upper)
    requires lower == if bottom - padding > 0 then bottom - padding else 0
    ensures lower == LowerCutoff(reach, padding) && upper == UpperCutoff(reach, padding)
  {
  }

  /** The cutoffs of a crop of the square grid `full`: the x cutoffs are the
      `LowerCutoff` and `UpperCutoff` of its rows and, when the crop succeeds,
      the y cutoffs are those of the columns of the rows kept,
      `full[left:right + extra]`. */
  ghost predicate CutoffsAre(full: Grid, contourFun: real, padding: int, extra: int, ok: bool,
                             left: int, right: int, bottom: int, top: int) {
    && |full| >= 1 && Rectangular(full) && Cols(full) == |full|
    && left == LowerCutoff(RowsReaching(full, contourFun), padding)
    && right == UpperCutoff(RowsReaching(full, contourFun), padding)
    && (ok ==> bottom == LowerCutoff(ColumnsReaching(full, left, right + extra, contourFun), padding))
    && (ok ==> top == UpperCutoff(ColumnsReaching(full, left, right + extra, contourFun), padding))
  }

  /** How the crop of `full` ends for any padding, negative ones included:
      the cutoffs are those `CutoffsAre` fixes, and numpy raises on the
      minimum of an empty row exactly when the x slice `xValues[left:right +
      extra]` is empty and the grid has more than one column; `extra` is 0 as
      written and 1 as intended. */
  ghost predicate CropEnds(res: Result<GridContour>, full: Grid, xValues: seq<real>, contourFun: real, padding: int,
                           asWritten: bool, left: int, right: int, bottom: int, top: int) {
    var extra := if asWritten then 0 else 1;
    && CutoffsAre(full, contourFun, padding, extra, res.Ok?, left, right, bottom, top)
    && (res.Err? <==> |full| > 1 && PySlice(xValues, left, right + extra) == [])
    && (res.Err? ==> res.error == EmptyArrayMinimum)
  }

  /** The cropped grid: the axis values kept and the grid values over them. */
  datatype GridContour = GridContour(xValues: seq<real>, yValues: seq<real>, values: Grid)

  /** One axis of the crop: the cutoffs of lines 399-413 (or 418-426) and
      the slices of lines 415 and 431 (or 428 and 432) with those cutoffs;
      `extra` is 0 for the slices `[lower:upper]` as written and 1 for
      `[lower:upper + 1]`. With a padding of at least 0, every row holding a
      value at or below the contour level lies within the cutoffs. */
  method CropAxis(rows: Grid, axis: seq<real>, contourFun: real, padding: int, extra: int, ghost reach: seq<bool>)
    returns (r: Result<(Grid, seq<real>)>, lower: int, upper: int)
    requires |rows| >= 1 && Rectangular(rows) && |axis| == |rows| && 0 <= extra <= 1 && Flags(rows, contourFun, reach)
    ensures r.Err? <==> Cols(rows) == 0 && |rows| > 1
    ensures r.Err? ==> r.error == EmptyArrayMinimum
    ensures r.Ok? ==> 0 <= lower && upper <= |rows| - 1
    ensures r.Ok? ==> r.value.0 == PySlice(rows, lower, upper + extra) && r.value.1 == PySlice(axis, lower, upper + extra)
    ensures r.Ok? && padding >= 0 ==> lower <= upper
    ensures r.Ok? && padding >= 0 ==> LevelWithin(rows, contourFun, lower, upper)
    ensures r.Ok? ==> lower == LowerCutoff(reach, padding) && upper == UpperCutoff(reach, padding)
  {
    lower, upper := 0, 0;
    var cut :- AxisCutoffs(rows, contourFun, padding, reach);
    lower, upper := cut.0, cut.1;
    if padding >= 0 {
      CellsWithinCutoffs(rows, contourFun, lower, upper);
    }
    return Ok((PySlice(rows, lower, upper + extra), PySlice(axis, lower, upper + extra))), lower, upper;
  }

  /** Lines 399-432: the window of the grid that starts at `(left, bottom)`
      and its axis values. The x window holds every row with a value at or
      below the contour level, and the y window every such cell of the
      rows kept. numpy raises on the minimum of an empty row exactly when the
      x window is empty and the grid has more than one column. */
  method CropWindow(g: Grid, xValues: seq<real>, yValues: seq<real>, contourFun: real, padding: int, extra: int)
    returns (res: Result<GridContour>, left: int, right: int, bottom: int, top: int)
    requires |g| >= 1 && Rectangular(g) && Cols(g) == |g| == |xValues| == |yValues| && 0 <= extra <= 1
    ensures res.Err? <==> |g| > 1 && PySlice(xValues, left, right + extra) == []
    ensures res.Err? ==> res.error == EmptyArrayMinimum
    ensures 0 <= left && right <= |g| - 1
    ensures padding >= 0 ==> left <= right && (res.Err? <==> |g| > 1 && right + extra == left)
    ensures res.Ok? ==> 0 <= bottom && top <= |g| - 1
    ensures res.Ok? && padding >= 0 ==> |res.value.xValues| == right + extra - left && |res.value.yValues| == top + extra - bottom
    ensures res.Ok? ==> res.value.xValues == PySlice(xValues, left, right + extra)
    ensures res.Ok? ==> res.value.yValues == PySlice(yValues, bottom, top + extra)
    ensures res.Ok? ==> Window(g, res.value.values, SliceIndex(left, |g|), SliceIndex(bottom, |g|),
                               |res.value.xValues|, |res.value.yValues|)
    ensures res.Ok? && padding >= 0 ==> bottom <= top
    ensures padding >= 0 ==> LevelWithin(g, contourFun, left, right)
    ensures res.Ok? && padding >= 0 ==> KeptWithin(g, contourFun, left, right + extra, bottom, top)
    ensures padding >= 0 && extra == 1 ==> res.Ok?
    ensures CutoffsAre(g, contourFun, padding, extra, res.Ok?, left, right, bottom, top)
  {
    var xCrop;
    xCrop, left, right := CropAxis(g, xValues, contourFun, padding, extra, RowsReaching(g, contourFun));
    // The rows of the full grid are never empty, so this crop does not raise.
    var (xRows, xs) := xCrop.value;
    PySliceSameLength(xValues, g, left, right + extra);
    res, bottom, top := CropKeptRows(g, xRows, xs, yValues, contourFun, padding, extra, left, right + extra);
  }

  /** The second half of the crop (lines 416-432): the kept rows `xRows =
      g[x0:x1]`, with their axis values `xs`, cut down to the columns that
      reach the contour level. */
  method CropKeptRows(g: Grid, xRows: Grid, xs: seq<real>, yValues: seq<real>, contourFun: real, padding: int, extra: int,
                      ghost x0: int, ghost x1: int)
    returns (res: Result<GridContour>, bottom: int, top: int)
    requires |g| >= 1 && Rectangular(g) && Cols(g) == |g| == |yValues| && 0 <= extra <= 1
    requires 0 <= x0 && x1 <= |g| && (padding >= 0 ==> x0 <= x1)
    requires xRows == PySlice(g, x0, x1) && |xs| == |xRows|
    ensures res.Err? <==> |g| > 1 && |xRows| == 0
    ensures res.Err? ==> res.error == EmptyArrayMinimum
    ensures res.Ok? ==> 0 <= bottom && top <= |g| - 1
    ensures res.Ok? ==> res.value.xValues == xs && res.value.yValues == PySlice(yValues, bottom, top + extra)
    ensures res.Ok? ==> Window(g, res.value.values, SliceIndex(x0, |g|), SliceIndex(bottom, |g|), |xs|, |res.value.yValues|)
    ensures res.Ok? && padding >= 0 ==> bottom <= top
    ensures res.Ok? && padding >= 0 ==> KeptWithin(g, contourFun, x0, x1, bottom, top)
    ensures padding >= 0 && x0 < x1 ==> res.Ok?
    ensures res.Ok? ==> bottom == LowerCutoff(ColumnsReaching(g, x0, x1, contourFun), padding)
    ensures res.Ok? ==> top == UpperCutoff(ColumnsReaching(g, x0, x1, contourFun), padding)
  {
    var t := Transpose(xRows, |g|);
    var yCrop;
    ColumnsReachingTransposed(g, x0, x1, xRows, t, contourFun);
    yCrop, bottom, top := CropAxis(t, yValues, contourFun, padding, extra, ColumnsReaching(g, x0, x1, contourFun));
    if yCrop.Err? {
      return Err(yCrop.error), bottom, top;
    }
    var (yRows, ys) := yCrop.value;
    var values := Transpose(yRows, |xRows|);
    res := Ok(GridContour(xs, ys, values));
    PySliceSameLength(yValues, t, bottom, top + extra);
    CropShape(g, x0, x1, bottom, top + extra, xRows, t, yRows, values);
    if padding >= 0 {
      KeptColumns(g, contourFun, x0, x1, xRows, t, bottom, top);
    }
  }

  /** `w` is the `cols`-by-`rows` window of `g` whose corner is `(x0, y0)`. */
  ghost predicate Window(g: Grid, w: Grid, x0: int, y0: int, cols: int, rows: int) {
    |w| == cols && (forall i :: 0 <= i < cols ==> |w[i]| == rows)
    && 0 <= x0 && x0 + cols <= |g| && (forall i :: 0 <= i < |g| ==> y0 + rows <= |g[i]|) && 0 <= y0
    && forall i, j :: 0 <= i < cols && 0 <= j < rows ==> w[i][j] == g[x0 + i][y0 + j]
  }

  /** The two slices and transpositions of lines 415-429 cut out a window. */
  lemma CropShape(g: Grid, x0: int, x1: int, y0: int, y1: int, xRows: Grid, t: Grid, yRows: Grid, values: Grid)
    requires |g| >= 1 && Rectangular(g) && Cols(g) == |g|
    requires xRows == PySlice(g, x0, x1) && t == Transpose(xRows, |g|)
    requires yRows == PySlice(t, y0, y1)
    requires forall j :: 0 <= j < |yRows| ==> |yRows[j]| == |xRows|
    requires values == Transpose(yRows, |xRows|)
    ensures Window(g, values, SliceIndex(x0, |g|), SliceIndex(y0, |g|), |xRows|, |yRows|)
  {
    var lo, bo := SliceIndex(x0, |g|), SliceIndex(y0, |g|);
    forall i, j | 0 <= i < |xRows| && 0 <= j < |yRows|
      ensures values[i][j] == g[lo + i][bo + j]
    {
      CropCell(g, x0, x1, y0, y1, xRows, t, yRows, values, i, j);
    }
  }

  /** One cell of `CropShape`'s window. */
  lemma CropCell(g: Grid, x0: int, x1: int, y0: int, y1: int, xRows: Grid, t: Grid, yRows: Grid, values: Grid, i: int, j: int)
    requires |g| >= 1 && Rectangular(g) && Cols(g) == |g|
    requires xRows == PySlice(g, x0, x1) && t == Transpose(xRows, |g|)
    requires yRows == PySlice(t, y0, y1)
    requires forall j :: 0 <= j < |yRows| ==> |yRows[j]| == |xRows|
    requires values == Transpose(yRows, |xRows|)
    requires 0 <= i < |xRows| && 0 <= j < |yRows|
    ensures SliceIndex(x0, |g|) + i < |g| && SliceIndex(y0, |g|) + j < |g[SliceIndex(x0, |g|) + i]|
    ensures i < |values| && j < |values[i]|
    ensures values[i][j] == g[SliceIndex(x0, |g|) + i][SliceIndex(y0, |g|) + j]
  {
    var lo, bo := SliceIndex(x0, |g|), SliceIndex(y0, |g|);
    assert values[i][j] == yRows[j][i] == t[bo + j][i] == xRows[i][bo + j];
  }

  /** A cell of the kept rows reappears in the transposed grid. */
  lemma TransposedCell(g: Grid, x0: int, x1: int, xRows: Grid, t: Grid, x: int, y: int)
    requires |g| >= 1 && Rectangular(g) && Cols(g) == |g| && 0 <= x0 <= x1 <= |g|
    requires xRows == PySlice(g, x0, x1) && t == Transpose(xRows, |g|)
    requires x0 <= x < x1 && 0 <= y < |g|
    ensures 0 <= x - x0 < |t[y]| && t[y][x - x0] == g[x][y]
  {
  }

  /** The rows of the transposed kept rows reach the level exactly where the
      columns of the kept rows do. */
  lemma ColumnsReachingTransposed(g: Grid, x0: int, x1: int, xRows: Grid, t: Grid, level: real)
    requires |g| >= 1 && Rectangular(g) && Cols(g) == |g| && 0 <= x0 && x1 <= |g|
    requires xRows == PySlice(g, x0, x1) && t == Transpose(xRows, |g|)
    ensures Flags(t, level, ColumnsReaching(g, x0, x1, level))
  {
    var b := ColumnsReaching(g, x0, x1, level);
    forall y | 0 <= y < |g|
      ensures b[y] == Reaches(t[y], level)
    {
      ColumnReachesTransposed(g, x0, x1, xRows, t, level, y);
    }
  }

  /** One column of `ColumnsReachingTransposed`. */
  lemma ColumnReachesTransposed(g: Grid, x0: int, x1: int, xRows: Grid, t: Grid, level: real, y: int)
    requires |g| >= 1 && Rectangular(g) && Cols(g) == |g| && 0 <= x0 && x1 <= |g|
    requires xRows == PySlice(g, x0, x1) && t == Transpose(xRows, |g|)
    requires 0 <= y < |g|
    ensures ColumnReaches(g, SliceIndex(x0, |g|), SliceIndex(x1, |g|), y, level) == Reaches(t[y], level)
  {
    var lo, hi := SliceIndex(x0, |g|), SliceIndex(x1, |g|);
    forall i | 0 <= i < |t[y]|
      ensures t[y][i] == g[lo + i][y]
    {
      assert t[y][i] == xRows[i][y];
    }
    ColumnAsRow(g, lo, hi, y, t[y], level);
  }

  /** A row holding column `y` of the rows `g[lo..hi]` reaches the level
      exactly when that column does. */
  lemma {:induction false} ColumnAsRow(g: Grid, lo: nat, hi: int, y: nat, row: seq<real>, level: real)
    requires Rectangular(g) && y < Cols(g) && hi <= |g|
    requires |row| == (if lo < hi then hi - lo else 0)
    requires forall i :: 0 <= i < |row| ==> row[i] == g[lo + i][y]
    ensures ColumnReaches(g, lo, hi, y, level) == Reaches(row, level)
    decreases hi - lo
  {
    if lo < hi {
      ColumnAsRow(g, lo + 1, hi, y, row[1..], level);
    }
  }

  /** Every row holding a value at or below the contour level lies between
      `lower` and `upper`. */
  ghost predicate LevelWithin(rows: Grid, contourFun: real, lower: int, upper: int) {
    forall k, j :: 0 <= k < |rows| && 0 <= j < |rows[k]| && rows[k][j] <= contourFun ==> lower <= k <= upper
  }

  /** In the rows from `x0` up to `x1`, every value at or below the contour
      level lies between columns `bottom` and `top`. */
  ghost predicate KeptWithin(g: Grid, contourFun: real, x0: int, x1: int, bottom: int, top: int) {
    forall x, y :: x0 <= x < x1 && 0 <= x < |g| && 0 <= y < |g[x]| && g[x][y] <= contourFun ==> bottom <= y <= top
  }

  /** Rows whose minimum reaches the level lie between the cutoffs, so every
      cell at or below the level does. */
  lemma CellsWithinCutoffs(rows: Grid, contourFun: real, lower: int, upper: int)
    requires forall k :: 0 <= k < |rows| && |rows[k]| > 0 && Min(rows[k]) <= contourFun ==> lower <= k <= upper
    ensures LevelWithin(rows, contourFun, lower, upper)
  {
  }

  /** The y cutoffs found on the transposed kept rows bound every kept cell at
      or below the level. */
  lemma KeptColumns(g: Grid, contourFun: real, x0: int, x1: int, xRows: Grid, t: Grid, bottom: int, top: int)
    requires |g| >= 1 && Rectangular(g) && Cols(g) == |g| && 0 <= x0 <= x1 <= |g|
    requires xRows == PySlice(g, x0, x1) && t == Transpose(xRows, |g|)
    requires LevelWithin(t, contourFun, bottom, top)
    ensures KeptWithin(g, contourFun, x0, x1, bottom, top)
  {
    forall x, y | x0 <= x < x1 && 0 <= x < |g| && 0 <= y < |g[x]| && g[x][y] <= contourFun
      ensures bottom <= y <= top
    {
      TransposedCell(g, x0, x1, xRows, t, x, y);
    }
  }

  /** The crop with inclusive upper cutoffs, `[lower:upper + 1]`: every cell at
      or below the contour level is kept, with its value. */
  method Crop(g: Grid, xValues: seq<real>, yValues: seq<real>, contourFun: real, padding: int)
    returns (res: Result<GridContour>, left: int, right: int, bottom: int, top: int)
    requires |g| >= 1 && Rectangular(g) && Cols(g) == |g| == |xValues| == |yValues|
    ensures padding >= 0 ==> res.Ok?
    ensures res.Err? ==> res.error == EmptyArrayMinimum
    ensures res.Ok? ==> Window(g, res.value.values, SliceIndex(left, |g|), SliceIndex(bottom, |g|),
                               |res.value.xValues|, |res.value.yValues|)
    ensures res.Ok? ==> forall i :: 0 <= i < |res.value.xValues| ==> res.value.xValues[i] == xValues[SliceIndex(left, |g|) + i]
    ensures res.Ok? ==> forall j :: 0 <= j < |res.value.yValues| ==> res.value.yValues[j] == yValues[SliceIndex(bottom, |g|) + j]
    ensures res.Ok? ==> 0 <= left && 0 <= bottom
    ensures padding >= 0 ==> 0 <= left <= right <= |g| - 1
    ensures res.Ok? && padding >= 0 ==> 0 <= bottom <= top <= |g| - 1
    ensures res.Ok? && padding >= 0 ==> |res.value.xValues| == right + 1 - left && |res.value.yValues| == top + 1 - bottom
    ensures res.Ok? && padding >= 0 ==>
      forall x, y :: 0 <= x < |g| && 0 <= y < |g| && g[x][y] <= contourFun ==>
        left <= x < left + |res.value.xValues| && bottom <= y < bottom + |res.value.yValues|
    ensures CutoffsAre(g, contourFun, padding, 1, res.Ok?, left, right, bottom, top)
    ensures CropEnds(res, g, xValues, contourFun, padding, false, left, right, bottom, top)
    ensures padding >= 0 ==> CropOutcome(res, g, contourFun, padding, false, left, right, bottom, top)
  {
    res, left, right, bottom, top := CropWindow(g, xValues, yValues, contourFun, padding, 1);
    IntendedCrop(g, xValues, yValues, contourFun, padding, res, left, right, bottom, top);
  }

  /** What `CropWindow` promises with inclusive upper cutoffs makes up `Crop`'s
      contract. */
  lemma IntendedCrop(g: Grid, xValues: seq<real>, yValues: seq<real>, contourFun: real, padding: int,
                     res: Result<GridContour>, left: int, right: int, bottom: int, top: int)
    requires |g| >= 1 && Rectangular(g) && Cols(g) == |g| == |xValues| == |yValues|
    requires res.Err? <==> |g| > 1 && PySlice(xValues, left, right + 1) == []
    requires res.Err? ==> res.error == EmptyArrayMinimum
    requires 0 <= left && right <= |g| - 1
    requires padding >= 0 ==> left <= right && (res.Err? <==> |g| > 1 && right + 1 == left)
    requires res.Ok? ==> 0 <= bottom && top <= |g| - 1
    requires res.Ok? && padding >= 0 ==> |res.value.xValues| == right + 1 - left && |res.value.yValues| == top + 1 - bottom
    requires res.Ok? ==> res.value.xValues == PySlice(xValues, left, right + 1)
    requires res.Ok? ==> res.value.yValues == PySlice(yValues, bottom, top + 1)
    requires res.Ok? ==> Window(g, res.value.values, SliceIndex(left, |g|), SliceIndex(bottom, |g|),
                                |res.value.xValues|, |res.value.yValues|)
    requires res.Ok? && padding >= 0 ==> bottom <= top
    requires padding >= 0 ==> LevelWithin(g, contourFun, left, right)
    requires res.Ok? && padding >= 0 ==> KeptWithin(g, contourFun, left, right + 1, bottom, top)
    requires padding >= 0 ==> res.Ok?
    requires CutoffsAre(g, contourFun, padding, 1, res.Ok?, left, right, bottom, top)
    ensures padding >= 0 ==> res.Ok?
    ensures res.Err? ==> res.error == EmptyArrayMinimum
    ensures res.Ok? ==> Window(g, res.value.values, SliceIndex(left, |g|), SliceIndex(bottom, |g|),
                               |res.value.xValues|, |res.value.yValues|)
    ensures res.Ok? ==> forall i :: 0 <= i < |res.value.xValues| ==> res.value.xValues[i] == xValues[SliceIndex(left, |g|) + i]
    ensures res.Ok? ==> forall j :: 0 <= j < |res.value.yValues| ==> res.value.yValues[j] == yValues[SliceIndex(bottom, |g|) + j]
    ensures res.Ok? ==> 0 <= left && 0 <= bottom
    ensures padding >= 0 ==> 0 <= left <= right <= |g| - 1
    ensures res.Ok? && padding >= 0 ==> 0 <= bottom <= top <= |g| - 1
    ensures res.Ok? && padding >= 0 ==> |res.value.xValues| == right + 1 - left && |res.value.yValues| == top + 1 - bottom
    ensures res.Ok? && padding >= 0 ==>
      forall x, y :: 0 <= x < |g| && 0 <= y < |g| && g[x][y] <= contourFun ==>
        left <= x < left + |res.value.xValues| && bottom <= y < bottom + |res.value.yValues|
    ensures CutoffsAre(g, contourFun, padding, 1, res.Ok?, left, right, bottom, top)
    ensures CropEnds(res, g, xValues, contourFun, padding, false, left, right, bottom, top)
    ensures padding >= 0 ==> CropOutcome(res, g, contourFun, padding, false, left, right, bottom, top)
  {
    if res.Ok? {
      SliceValues(xValues, left, right + 1, res.value.xValues, |g|);
      SliceValues(yValues, bottom, top + 1, res.value.yValues, |g|);
    }
    if res.Ok? && padding >= 0 {
      KeptAllCells(g, contourFun, left, right, bottom, top, |res.value.xValues|, |res.value.yValues|);
    }
    OutcomeIntended(res, g, contourFun, padding, left, right, bottom, top);
  }

  /** `Crop`'s contract makes up `CropOutcome` as intended. */
  lemma OutcomeIntended(res: Result<GridContour>, g: Grid, contourFun: real, padding: int,
                        left: int, right: int, bottom: int, top: int)
    requires |g| >= 1 && Rectangular(g) && Cols(g) == |g|
    requires padding >= 0 ==> res.Ok?
    requires padding >= 0 ==> 0 <= left <= right <= |g| - 1
    requires res.Ok? && padding >= 0 ==> 0 <= bottom <= top <= |g| - 1
    requires res.Ok? && padding >= 0 ==> |res.value.xValues| == right + 1 - left && |res.value.yValues| == top + 1 - bottom
    requires res.Ok? && padding >= 0 ==>
      forall x, y :: 0 <= x < |g| && 0 <= y < |g| && g[x][y] <= contourFun ==>
        left <= x < left + |res.value.xValues| && bottom <= y < bottom + |res.value.yValues|
    requires CutoffsAre(g, contourFun, padding, 1, res.Ok?, left, right, bottom, top)
    ensures padding >= 0 ==> CropOutcome(res, g, contourFun, padding, false, left, right, bottom, top)
  {
  }

  /** The crop as written, with the slices `[lower:upper]` of lines 415, 428,
      431 and 432 although the cutoffs are inclusive: the last row and the last
      column of the grid are never kept, even where the contour reaches them,
      and the row or column at each upper cutoff is dropped. Where the x
      cutoffs meet (a contour within one row) no row is kept, and numpy raises
      on the minimum of an empty row. */
  method CropAsWritten(g: Grid, xValues: seq<real>, yValues: seq<real>, contourFun: real, padding: int)
    returns (res: Result<GridContour>, left: int, right: int, bottom: int, top: int)
    requires |g| >= 1 && Rectangular(g) && Cols(g) == |g| == |xValues| == |yValues|
    ensures res.Err? ==> res.error == EmptyArrayMinimum
    ensures padding >= 0 ==> 0 <= left <= right <= |g| - 1
    ensures padding >= 0 ==> (res.Err? <==> |g| > 1 && left == right)
    ensures res.Ok? ==> Window(g, res.value.values, SliceIndex(left, |g|), SliceIndex(bottom, |g|),
                               |res.value.xValues|, |res.value.yValues|)
    ensures res.Ok? ==> SliceIndex(left, |g|) + |res.value.xValues| <= |g| - 1 || |res.value.xValues| == 0
    ensures res.Ok? ==> SliceIndex(bottom, |g|) + |res.value.yValues| <= |g| - 1 || |res.value.yValues| == 0
    ensures res.Ok? ==> forall i :: 0 <= i < |res.value.xValues| ==> res.value.xValues[i] == xValues[SliceIndex(left, |g|) + i]
    ensures res.Ok? ==> forall j :: 0 <= j < |res.value.yValues| ==> res.value.yValues[j] == yValues[SliceIndex(bottom, |g|) + j]
    ensures res.Ok? && padding >= 0 ==> 0 <= bottom <= top <= |g| - 1
    ensures res.Ok? && padding >= 0 ==> |res.value.xValues| == right - left && |res.value.yValues| == top - bottom
    ensures res.Ok? && padding >= 0 ==>
      forall x, y :: 0 <= x < |g| && 0 <= y < |g| && g[x][y] <= contourFun && x != right && y != top ==>
        left <= x < left + |res.value.xValues| && bottom <= y < bottom + |res.value.yValues|
    ensures CutoffsAre(g, contourFun, padding, 0, res.Ok?, left, right, bottom, top)
    ensures CropEnds(res, g, xValues, contourFun, padding, true, left, right, bottom, top)
    ensures padding >= 0 ==> CropOutcome(res, g, contourFun, padding, true, left, right, bottom, top)
  {
    res, left, right, bottom, top := CropWindow(g, xValues, yValues, contourFun, padding, 0);
    AsWrittenCrop(g, xValues, yValues, contourFun, padding, res, left, right, bottom, top);
  }

  /** What `CropWindow` promises with exclusive upper cutoffs makes up
      `CropAsWritten`'s contract. */
  lemma AsWrittenCrop(g: Grid, xValues: seq<real>, yValues: seq<real>, contourFun: real, padding: int,
                       res: Result<GridContour>, left: int, right: int, bottom: int, top: int)
    requires |g| >= 1 && Rectangular(g) && Cols(g) == |g| == |xValues| == |yValues|
    requires res.Err? <==> |g| > 1 && PySlice(xValues, left, right) == []
    requires res.Err? ==> res.error == EmptyArrayMinimum
    requires 0 <= left && right <= |g| - 1
    requires padding >= 0 ==> left <= right && (res.Err? <==> |g| > 1 && right == left)
    requires res.Ok? ==> 0 <= bottom && top <= |g| - 1
    requires res.Ok? && padding >= 0 ==> |res.value.xValues| == right - left && |res.value.yValues| == top - bottom
    requires res.Ok? ==> res.value.xValues == PySlice(xValues, left, right)
    requires res.Ok? ==> res.value.yValues == PySlice(yValues, bottom, top)
    requires res.Ok? ==> Window(g, res.value.values, SliceIndex(left, |g|), SliceIndex(bottom, |g|),
                                |res.value.xValues|, |res.value.yValues|)
    requires res.Ok? && padding >= 0 ==> bottom <= top
    requires padding >= 0 ==> LevelWithin(g, contourFun, left, right)
    requires res.Ok? && padding >= 0 ==> KeptWithin(g, contourFun, left, right, bottom, top)
    requires CutoffsAre(g, contourFun, padding, 0, res.Ok?, left, right, bottom, top)
    ensures res.Err? ==> res.error == EmptyArrayMinimum
    ensures padding >= 0 ==> 0 <= left <= right <= |g| - 1
    ensures padding >= 0 ==> (res.Err? <==> |g| > 1 && left == right)
    ensures res.Ok? ==> Window(g, res.value.values, SliceIndex(left, |g|), SliceIndex(bottom, |g|),
                               |res.value.xValues|, |res.value.yValues|)
    ensures res.Ok? ==> SliceIndex(left, |g|) + |res.value.xValues| <= |g| - 1 || |res.value.xValues| == 0
    ensures res.Ok? ==> SliceIndex(bottom, |g|) + |res.value.yValues| <= |g| - 1 || |res.value.yValues| == 0
    ensures res.Ok? ==> forall i :: 0 <= i < |res.value.xValues| ==> res.value.xValues[i] == xValues[SliceIndex(left, |g|) + i]
    ensures res.Ok? ==> forall j :: 0 <= j < |res.value.yValues| ==> res.value.yValues[j] == yValues[SliceIndex(bottom, |g|) + j]
    ensures res.Ok? && padding >= 0 ==> 0 <= bottom <= top <= |g| - 1
    ensures res.Ok? && padding >= 0 ==> |res.value.xValues| == right - left && |res.value.yValues| == top - bottom
    ensures res.Ok? && padding >= 0 ==>
      forall x, y :: 0 <= x < |g| && 0 <= y < |g| && g[x][y] <= contourFun && x != right && y != top ==>
        left <= x < left + |res.value.xValues| && bottom <= y < bottom + |res.value.yValues|
    ensures CutoffsAre(g, contourFun, padding, 0, res.Ok?, left, right, bottom, top)
    ensures CropEnds(res, g, xValues, contourFun, padding, true, left, right, bottom, top)
    ensures padding >= 0 ==> CropOutcome(res, g, contourFun, padding, true, left, right, bottom, top)
  {
    if res.Ok? {
      SliceValues(xValues, left, right, res.value.xValues, |g|);
      SliceValues(yValues, bottom, top, res.value.yValues, |g|);
    }
    if res.Ok? && padding >= 0 {
      KeptBelowCutoffs(g, contourFun, left, right, bottom, top, |res.value.xValues|, |res.value.yValues|);
    }
    OutcomeAsWritten(res, g, contourFun, padding, left, right, bottom, top);
  }

  /** `CropAsWritten`'s contract makes up `CropOutcome` as written. */
  lemma OutcomeAsWritten(res: Result<GridContour>, g: Grid, contourFun: real, padding: int,
                         left: int, right: int, bottom: int, top: int)
    requires |g| >= 1 && Rectangular(g) && Cols(g) == |g|
    requires res.Err? ==> res.error == EmptyArrayMinimum
    requires padding >= 0 ==> 0 <= left <= right <= |g| - 1
    requires padding >= 0 ==> (res.Err? <==> |g| > 1 && left == right)
    requires res.Ok? && padding >= 0 ==> 0 <= bottom <= top <= |g| - 1
    requires res.Ok? && padding >= 0 ==> |res.value.xValues| == right - left && |res.value.yValues| == top - bottom
    requires res.Ok? && padding >= 0 ==>
      forall x, y :: 0 <= x < |g| && 0 <= y < |g| && g[x][y] <= contourFun && x != right && y != top ==>
        left <= x < left + |res.value.xValues| && bottom <= y < bottom + |res.value.yValues|
    requires CutoffsAre(g, contourFun, padding, 0, res.Ok?, left, right, bottom, top)
    ensures padding >= 0 ==> CropOutcome(res, g, contourFun, padding, true, left, right, bottom, top)
  {
  }

  /** The values of a slice `s[a:b]` with `b` at most the last index: each is
      the value of `s` it was cut from, and the slice stops before the last. */
  lemma SliceValues(s: seq<real>, a: int, b: int, r: seq<real>, n: nat)
    requires r == PySlice(s, a, b) && n == |s|
    ensures forall i :: 0 <= i < |r| ==> r[i] == s[SliceIndex(a, n) + i]
    ensures b <= n - 1 ==> SliceIndex(a, n) + |r| <= n - 1 || |r| == 0
  {
  }

  /** With inclusive upper cutoffs, a window of `nx` by `ny` cells from
      `(left, bottom)` holds every cell at or below the level. */
  lemma KeptAllCells(g: Grid, contourFun: real, left: int, right: int, bottom: int, top: int, nx: int, ny: int)
    requires Rectangular(g) && Cols(g) == |g|
    requires LevelWithin(g, contourFun, left, right) && KeptWithin(g, contourFun, left, right + 1, bottom, top)
    requires nx == right + 1 - left && ny == top + 1 - bottom
    ensures forall x, y :: 0 <= x < |g| && 0 <= y < |g| && g[x][y] <= contourFun ==>
      left <= x < left + nx && bottom <= y < bottom + ny
  {
  }

  /** With exclusive upper cutoffs, a window of `nx` by `ny` cells from
      `(left, bottom)` holds every cell at or below the level that is on
      neither upper cutoff. */
  lemma KeptBelowCutoffs(g: Grid, contourFun: real, left: int, right: int, bottom: int, top: int, nx: int, ny: int)
    requires Rectangular(g) && Cols(g) == |g|
    requires LevelWithin(g, contourFun, left, right) && KeptWithin(g, contourFun, left, right, bottom, top)
    requires nx == right - left && ny == top - bottom
    ensures forall x, y :: 0 <= x < |g| && 0 <= y < |g| && g[x][y] <= contourFun && x != right && y != top ==>
      left <= x < left + nx && bottom <= y < bottom + ny
  {
  }

  // ---------------------------------------------------------------------------
  // The whole tracer (lines 288-436)

  /** `np.sqrt(grid - min_fun)` (line 434) with the square root as an oracle. */
  function Deficits(nm: Numerics, values: Grid, minFun: real): (d: Grid)
    ensures |d| == |values| && forall i :: 0 <= i < |values| ==> |d[i]| == |values[i]|
    ensures forall i, j :: 0 <= i < |values| && 0 <= j < |values[i]| ==> d[i][j] == nm.sqrt(values[i][j] - minFun)
  {
    seq(|values|, i requires 0 <= i < |values| => seq(|values[i]|, j requires 0 <= j < |values[i]| => nm.sqrt(values[i][j] - minFun)))
  }

  /** The smaller of the fit's function value and the cost at the centre,
      as Python's `min` of two numbers. */
  function MinFun(functionValue: real, centreCost: real): (m: real)
    ensures m <= functionValue && m <= centreCost && (m == functionValue || m == centreCost)
  {
    if centreCost < functionValue then centreCost else functionValue
  }

  /** The contour level `min_fun + sigma ** 2` (line 325). */
  function ContourLevel(minFun: real, sigma: real): real {
    minFun + sigma * sigma
  }

  /** Half the width of an axis, `area_scale_factor * sigma * err` (lines 304 and 306). */
  function HalfWidth(areaScaleFactor: real, sigma: real, err: real): real {
    areaScaleFactor * sigma * err
  }

  /** Lines 309-321: a grid of -1 values with the coarse pass run over it. */
  method StartGrid(s: GridSetup, step: int) returns (grid: array2<real>)
    requires step >= 1 && |s.xValues| == |s.yValues|
    ensures fresh(grid) && grid.Length0 == grid.Length1 == |s.xValues|
    ensures IsStartGrid(s, Snapshot(grid), step)
  {
    var n := |s.xValues|;
    grid := new real[n, n]((i, j) => -1.0);
    CoarsePass(s, grid, step);
    if n > 0 {
      assert Cols(Snapshot(grid)) == n;
    }
  }

  /** Lines 309-397: a grid of -1 values, the coarse pass, the contour level
      `min_fun + sigma ** 2`, and the refinement loop. The rounds run from the
      grid of coarse costs and -1 markers through `history` to the grid
      returned, each with the effect `RoundEffect` states; in the grid
      returned every coarse cell holds its cost and every cell is filled in. */
  method FillGrid(s: GridSetup, functionValue: real, sigma: real, initialPoints: nat, iterations: nat)
    returns (full: Grid, minFun: real, ghost history: seq<Grid>, ghost confirmed: seq<set<Cell>>)
    requires initialPoints >= 1
    requires |s.xValues| == |s.yValues| == GridSide(initialPoints, iterations)
    ensures |full| == |s.xValues| >= 3 && Rectangular(full) && Cols(full) == |full|
    ensures minFun == MinFun(functionValue, CellCost(s, (|full| / 2, |full| / 2)))
    ensures |history| == 2 * iterations && IsStartGrid(s, (history + [full])[0], Pow2(iterations))
    ensures RoundsTrace(s, ContourLevel(minFun, sigma), iterations, history + [full], confirmed)
    ensures forall a, b :: 0 <= a < |full| && 0 <= b < |full| && Coarse((a, b), Pow2(iterations)) ==>
      full[a][b] == CellCost(s, (a, b))
    ensures forall a, b :: 0 <= a < |full| && 0 <= b < |full| ==>
      Filled(s, ContourLevel(minFun, sigma), iterations, history, (a, b), full[a][b])
  {
    var n := GridSide(initialPoints, iterations);
    CoarseStride(initialPoints, iterations);
    CentreOnCoarseGrid(initialPoints, iterations);
    var grid := StartGrid(s, (n - 1) / (CoarseSide(initialPoints) - 1));
    var mid := (n - 1) / 2;
    assert mid == n / 2;
    minFun := MinFun(functionValue, grid[mid, mid]);
    history, confirmed := Refine(s, grid, ContourLevel(minFun, sigma), iterations);
    full := Snapshot(grid);
  }

  /** What a run of the tracer computed on the way to its result: the axes
      the cost evaluations used, the grids the rounds found (`history`) and
      the one they left (`full`), the cells confirmed before each round, the
      minimum the contour is measured from, and the crop's cutoffs. */
  datatype GridTrace = GridTrace(setup: GridSetup, history: seq<Grid>, confirmed: seq<set<Cell>>, full: Grid,
                                 minFun: real, left: int, right: int, bottom: int, top: int)

  /** Lines 304-397 for the two parameters `ids` at `centre` with errors
      `err`: the axes span `scale * sigma` errors each side of the centre;
      the minimum is the smaller of the fit's function value and the cost at
      the centre; the rounds start from the coarse costs and -1 markers, and
      each has the effect `RoundEffect` states; the grid they leave holds the
      costs on the coarse lattice and every cell filled in. */
  ghost predicate Traced(solver: SolverSetup, ids: (nat, nat), centre: Vec2, err: Vec2, functionValue: real, sigma: real,
                         initialPoints: nat, iterations: nat, scale: real, t: GridTrace) {
    var n := GridSide(initialPoints, iterations);
    && t.setup == GridSetup(solver, ids, AxisValues(centre.0, HalfWidth(scale, sigma, err.0), n),
                            AxisValues(centre.1, HalfWidth(scale, sigma, err.1), n))
    && |t.full| == n && Rectangular(t.full) && Cols(t.full) == n
    && t.minFun == MinFun(functionValue, CellCost(t.setup, (n / 2, n / 2)))
    && |t.history| == 2 * iterations && IsStartGrid(t.setup, (t.history + [t.full])[0], Pow2(iterations))
    && RoundsTrace(t.setup, ContourLevel(t.minFun, sigma), iterations, t.history + [t.full], t.confirmed)
    && (forall a, b :: 0 <= a < n && 0 <= b < n && Coarse((a, b), Pow2(iterations)) ==> t.full[a][b] == CellCost(t.setup, (a, b)))
    && (forall a, b :: 0 <= a < n && 0 <= b < n ==>
          Filled(t.setup, ContourLevel(t.minFun, sigma), iterations, t.history, (a, b), t.full[a][b]))
  }

  /** How the crop of `full` with a padding of at least 0 ends: the cutoffs
      are those `CutoffsAre` fixes, and the x cutoffs lie in the grid; as
      written the crop raises exactly when they meet, and otherwise the window
      keeps the rows and columns from the lower cutoffs up to the upper ones,
      which it includes only as intended (`asWritten` false). Every cell at or
      below the contour level lies in the window, except, as written, a cell
      on an upper cutoff. */
  ghost predicate CropOutcome(res: Result<GridContour>, full: Grid, contourFun: real, padding: int, asWritten: bool,
                              left: int, right: int, bottom: int, top: int) {
    var n, extra := |full|, if asWritten then 0 else 1;
    && CutoffsAre(full, contourFun, padding, extra, res.Ok?, left, right, bottom, top)
    && 0 <= left <= right < n
    && (res.Err? <==> asWritten && n > 1 && left == right)
    && (res.Err? ==> res.error == EmptyArrayMinimum)
    && (res.Ok? ==>
          && 0 <= bottom <= top < n
          && |res.value.xValues| == right + extra - left && |res.value.yValues| == top + extra - bottom
          && forall x, y :: 0 <= x < n && 0 <= y < |full[x]| && full[x][y] <= contourFun && (!asWritten || (x != right && y != top)) ==>
               left <= x < left + |res.value.xValues| && bottom <= y < bottom + |res.value.yValues|)
  }

  /** With no padding and a grid of more than one row in which row `k` alone
      reaches the contour level, both x cutoffs are `k`: the crop as written
      keeps no row and numpy raises on the minimum of the empty slice, while
      the intended crop keeps just row `k`. */
  lemma OneRowCrop(res: Result<GridContour>, full: Grid, contourFun: real, asWritten: bool,
                   left: int, right: int, bottom: int, top: int, k: nat)
    requires CropOutcome(res, full, contourFun, 0, asWritten, left, right, bottom, top)
    requires |full| > 1 && k < |full| && Reaches(full[k], contourFun)
    requires forall i :: 0 <= i < |full| && i != k ==> !Reaches(full[i], contourFun)
    ensures left == k && right == k
    ensures asWritten ==> res == Err(EmptyArrayMinimum)
    ensures !asWritten ==> res.Ok? && |res.value.xValues| == 1
  {
    OneRowCutoffs(RowsReaching(full, contourFun), k);
  }

  /** A padding of at most minus the grid side, which a negative area factor
      gives, pushes the lower x cutoff past the last row: the x slice is empty
      and the crop raises, as written and as intended. */
  lemma WideNegativePaddingRaises(res: Result<GridContour>, full: Grid, xValues: seq<real>, contourFun: real, padding: int,
                                  asWritten: bool, left: int, right: int, bottom: int, top: int)
    requires CropEnds(res, full, xValues, contourFun, padding, asWritten, left, right, bottom, top)
    requires |full| > 1 && |xValues| == |full| && padding <= -|full|
    ensures left >= |full|
    ensures res == Err(EmptyArrayMinimum)
  {
    var reach := RowsReaching(full, contourFun);
    FirstReachingMeaning(reach, 0, UpperCutoff(reach, padding));
  }

  /** An area factor of 100 with five iterations leaves no padding. */
  lemma PaddingOfHundred()
    ensures Padding(Int(100), 5) == Ok(0) && Padding(Float(100.0), 5) == Ok(0)
  {
  }

  /** `_contour_heuristic_grid` after its integer arguments have been checked
      and the two parameters located: `solver` holds what the cost evaluations
      read, `centre` and `err` the two parameters' values and errors. A string
      area factor raises at the axes (line 304), a zero one at the padding
      (line 403). Otherwise the grids are those `Traced` describes, and the
      result is a window of the last one, shifted by the minimum and passed
      through the square root, whose crop ends as `CropOutcome` states for
      a positive factor; `asWritten` picks the slices as written or as
      intended. */
  method HeuristicGrid(nm: Numerics, solver: SolverSetup, ids: (nat, nat), centre: Vec2, err: Vec2,
                       functionValue: real, sigma: real, initialPoints: nat, iterations: nat, areaScaleFactor: Value,
                       asWritten: bool)
    returns (res: Result<GridContour>, ghost t: GridTrace)
    requires initialPoints >= 1
    ensures areaScaleFactor.Text? ==> res == Err(NotANumber("area_scale_factor"))
    ensures areaScaleFactor == Int(0) || areaScaleFactor == Float(0.0) ==> res == Err(DivisionByZero)
    ensures !areaScaleFactor.Text? ==>
      Traced(solver, ids, centre, err, functionValue, sigma, initialPoints, iterations,
             RealArg("area_scale_factor", areaScaleFactor).value, t)
    ensures res.Ok? ==> ContourOf(nm, res.value, t.full, t.setup, t.minFun, SliceIndex(t.left, |t.full|), SliceIndex(t.bottom, |t.full|))
    ensures Padding(areaScaleFactor, iterations).Ok? ==>
      CropEnds(res, t.full, t.setup.xValues, ContourLevel(t.minFun, sigma), Padding(areaScaleFactor, iterations).value,
               asWritten, t.left, t.right, t.bottom, t.top)
    ensures Padding(areaScaleFactor, iterations).Ok? && Padding(areaScaleFactor, iterations).value >= 0 ==>
      CropOutcome(res, t.full, ContourLevel(t.minFun, sigma), Padding(areaScaleFactor, iterations).value, asWritten,
                  t.left, t.right, t.bottom, t.top)
  {
    t := GridTrace(GridSetup(solver, ids, [], []), [], [], [], 0.0, 0, 0, 0, 0);
    var n := GridSide(initialPoints, iterations);
    var asf :- RealArg("area_scale_factor", areaScaleFactor);
    var xValues := AxisValues(centre.0, HalfWidth(asf, sigma, err.0), n);
    var yValues := AxisValues(centre.1, HalfWidth(asf, sigma, err.1), n);
    var s := GridSetup(solver, ids, xValues, yValues);
    var values, minF;
    ghost var history, confirmed;
    values, minF, history, confirmed := FillGrid(s, functionValue, sigma, initialPoints, iterations);
    var padding := Padding(areaScaleFactor, iterations);
    if padding.Err? {
      return Err(padding.error), GridTrace(s, history, confirmed, values, minF, 0, 0, 0, 0);
    }
    ghost var left, right, bottom, top;
    res, left, right, bottom, top := CropContour(nm, s, values, ContourLevel(minF, sigma), minF, padding.value, asWritten);
    t := GridTrace(s, history, confirmed, values, minF, left, right, bottom, top);
  }

  /** The end of `_contour_heuristic_grid` (lines 399-436): crop the filled
      grid `full` to the window around the contour and shift and take the
      square root of what is kept. */
  method CropContour(nm: Numerics, s: GridSetup, full: Grid, contourFun: real, minFun: real, padding: int, asWritten: bool)
    returns (res: Result<GridContour>, ghost left: int, ghost right: int, ghost bottom: int, ghost top: int)
    requires |full| == |s.xValues| == |s.yValues| >= 1 && Rectangular(full) && Cols(full) == |full|
    ensures res.Ok? ==> ContourOf(nm, res.value, full, s, minFun, SliceIndex(left, |full|), SliceIndex(bottom, |full|))
    ensures CropEnds(res, full, s.xValues, contourFun, padding, asWritten, left, right, bottom, top)
    ensures padding >= 0 ==> CropOutcome(res, full, contourFun, padding, asWritten, left, right, bottom, top)
  {
    var n := |full|;
    var cropped;
    cropped, left, right, bottom, top := CropBy(full, s.xValues, s.yValues, contourFun, padding, asWritten);
    var window :- cropped;
    res := Ok(GridContour(window.xValues, window.yValues, Deficits(nm, window.values, minFun)));
    CropToContour(nm, window, res.value, full, s, minFun, SliceIndex(left, n), SliceIndex(bottom, n));
  }

  /** Lines 399-432 with the slices as written (`asWritten`) or as intended. */
  method CropBy(g: Grid, xValues: seq<real>, yValues: seq<real>, contourFun: real, padding: int, asWritten: bool)
    returns (res: Result<GridContour>, left: int, right: int, bottom: int, top: int)
    requires |g| >= 1 && Rectangular(g) && Cols(g) == |g| == |xValues| == |yValues|
    ensures res.Ok? ==> Window(g, res.value.values, SliceIndex(left, |g|), SliceIndex(bottom, |g|),
                               |res.value.xValues|, |res.value.yValues|)
    ensures res.Ok? ==> forall i :: 0 <= i < |res.value.xValues| ==> res.value.xValues[i] == xValues[SliceIndex(left, |g|) + i]
    ensures res.Ok? ==> forall j :: 0 <= j < |res.value.yValues| ==> res.value.yValues[j] == yValues[SliceIndex(bottom, |g|) + j]
    ensures CropEnds(res, g, xValues, contourFun, padding, asWritten, left, right, bottom, top)
    ensures padding >= 0 ==> CropOutcome(res, g, contourFun, padding, asWritten, left, right, bottom, top)
  {
    if asWritten {
      res, left, right, bottom, top := CropAsWritten(g, xValues, yValues, contourFun, padding);
    } else {
      res, left, right, bottom, top := Crop(g, xValues, yValues, contourFun, padding);
    }
  }

  /** The contour `c` is the window of `full` at `(left, bottom)`, shifted by
      `minFun` and passed through the square root, over the axis values of
      that window. */
  ghost predicate ContourOf(nm: Numerics, c: GridContour, full: Grid, s: GridSetup, minFun: real, left: int, bottom: int) {
    && 0 <= left && 0 <= bottom && |c.values| == |c.xValues|
    && left + |c.xValues| <= |full| && left + |c.xValues| <= |s.xValues| && bottom + |c.yValues| <= |s.yValues|
    && (forall i :: 0 <= i < |full| ==> bottom + |c.yValues| <= |full[i]|)
    && (forall i :: 0 <= i < |c.xValues| ==> c.xValues[i] == s.xValues[left + i] && |c.values[i]| == |c.yValues|)
    && (forall j :: 0 <= j < |c.yValues| ==> c.yValues[j] == s.yValues[bottom + j])
    && (forall i, j :: 0 <= i < |c.xValues| && 0 <= j < |c.yValues| ==>
          c.values[i][j] == nm.sqrt(full[left + i][bottom + j] - minFun))
  }

  lemma CropToContour(nm: Numerics, window: GridContour, c: GridContour, full: Grid, s: GridSetup, minFun: real, left: int, bottom: int)
    requires |full| == |s.xValues| == |s.yValues| >= 1 && Rectangular(full) && Cols(full) == |full|
    requires Window(full, window.values, left, bottom, |window.xValues|, |window.yValues|)
    requires forall i :: 0 <= i < |window.xValues| ==> window.xValues[i] == s.xValues[left + i]
    requires forall j :: 0 <= j < |window.yValues| ==> window.yValues[j] == s.yValues[bottom + j]
    requires c == GridContour(window.xValues, window.yValues, Deficits(nm, window.values, minFun))
    ensures ContourOf(nm, c, full, s, minFun, left, bottom)
  {
  }
}
