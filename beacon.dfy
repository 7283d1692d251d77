/**
 * The beacon contour tracer (`_contour_beacon`). Starting from the point
 * on the first parameter's axis where the cost reaches the contour level,
 * the tracer repeatedly lays a stretched search ellipse ahead of its
 * current point along the tangent, evaluates the cost at the ellipse's 21
 * points, and steps to the one whose cost is closest to the level. The
 * side of the ellipse it picked shrinks or widens the ellipse; a pick far
 * off to the side is a backtrack that drops the last contour point instead
 * of adding one. All trigonometry, the gradient and the root finder are
 * oracles; what is modelled exactly is the loop's bookkeeping.
 */
module Beacon {
  import opened PyBase
  import opened Solver
  import opened ContourPoints

  /** `CONTOUR_ELLIPSE_POINTS` */
  const EllipsePoints: nat := 21
  /** `CONTOUR_STRETCHING` */
  const Stretching: real := 4.0
  /** `np.pi` */
  const Pi: real := 3.141592653589793
  /** A pick whose stretched angle exceeds this (about 20 degrees) backtracks. */
  const BacktrackAngle: real := 0.349111
  /** The smallest curvature factor. */
  const FactorFloor: real := 0.25
  /** The pass counter stops the loop when it reaches this. */
  const MaxLoops: nat := 200
  /** The loop may stop near its start only once the counter exceeds this. */
  const MinLoops: nat := 10
  /** The default `beacon_size`. */
  const DefaultBeaconSize: real := 0.02

  /** What one run of the tracer reads: the solver inputs, the indices of the
      two parameters, their values at the minimum and their errors, the
      function value at the minimum, `sigma` and the beacon size. */
  datatype BeaconSetup = BeaconSetup(
    nm: Numerics, solver: SolverSetup, ids: (nat, nat), minimum: Vec2, err: Vec2,
    functionValue: real, sigma: real, beaconSize: real)

  function Square(x: real): real {
    x * x
  }

  /** The contour level, `function_value + sigma ** 2` (line 480). */
  function Level(b: BeaconSetup): real {
    b.functionValue + Square(b.sigma)
  }

  /** The constrained minimum with the two parameters pinned at the point
      `p` given in units of their errors (lines 524-529). */
  function PointCost(b: BeaconSetup, p: Vec2): real {
    ConstrainedCost(b.solver, PinBoth(b.ids, TransformCoordinates(b.minimum, p, b.err)))
  }

  /** The function whose root on the first parameter's axis is the start
      point (lines 501-502): the level minus the cost with the first
      parameter at `z` errors from the minimum and the second at its minimum. */
  function MetaCost(b: BeaconSetup): real -> real {
    z => Level(b) - ConstrainedCost(b.solver, PinBoth(b.ids, (b.minimum.0 + Times(b.err.0, z), b.minimum.1)))
  }

  /** The root finder's function is the level minus the cost along the first
      axis, so a root is a point of that axis on the contour. */
  lemma MetaCostAlongAxis(b: BeaconSetup, z: real)
    ensures MetaCost(b)(z) == Level(b) - PointCost(b, (z, 0.0))
    ensures MetaCost(b)(z) == 0.0 <==> PointCost(b, (z, 0.0)) == Level(b)
  {
    assert TransformCoordinates(b.minimum, (z, 0.0), b.err) == (b.minimum.0 + Times(b.err.0, z), b.minimum.1 + Times(0.0, b.err.1));
    assert Times(b.err.0, z) == Times(z, b.err.0) && Times(0.0, b.err.1) == 0.0;
  }

  /** `_calculate_tangential_angle` (lines 577-581): the direction of the
      cost's gradient at `coords`, turned a quarter. */
  function TangentialAngle(b: BeaconSetup, coords: Vec2): real {
    var grad := b.nm.gradient(pars => PointCost(b, pars), coords);
    b.nm.arctan2(grad.0, grad.1) + Pi / 2.0
  }

  // ---------------------------------------------------------------------------
  // The search ellipse and its tables (lines 490-499)

  /** The 21 angles from -pi/2 to pi/2. */
  function UnstretchedAngles(): (r: seq<real>)
    ensures |r| == EllipsePoints
  {
    Linspace(-Pi / 2.0, Pi / 2.0, EllipsePoints)
  }

  /** The ellipse, four times as long ahead as it is wide, in units of the
      errors: point `i` lies at angle `i` of the table. */
  function SearchEllipse(b: BeaconSetup): (r: seq<Vec2>)
    ensures |r| == EllipsePoints
  {
    var a := UnstretchedAngles();
    seq(EllipsePoints, i requires 0 <= i < EllipsePoints =>
      (Times(Times(b.sigma, b.beaconSize), b.nm.sin(a[i])),
       Times(Times(Times(b.sigma, Stretching), b.beaconSize), b.nm.cos(a[i]))))
  }

  function RealAbs(x: real): real {
    if x < 0.0 then -x else x
  }

  /** The angle of each ellipse point as seen on the stretched ellipse. */
  function StretchedAngles(nm: Numerics): (r: seq<real>)
    ensures |r| == EllipsePoints
  {
    var a := UnstretchedAngles();
    seq(EllipsePoints, i requires 0 <= i < EllipsePoints => RealAbs(nm.arctan(nm.tan(a[i]) / Stretching)))
  }

  /** The curvature factor of a pick at stretched angle `s`, before the floor:
      one plus a fortieth of the angle's shortfall from 10 degrees. */
  function RawFactor(s: real): real {
    1.0 + 0.025 * (10.0 - s * 180.0 / Pi)
  }

  /** `np.where(f >= 0.25, f, 0.25)` for one factor. */
  function Floored(f: real): real {
    if f >= FactorFloor then f else FactorFloor
  }

  /** The factor table of lines 496-497. */
  function CurvatureFactors(nm: Numerics): (r: seq<real>)
    ensures |r| == EllipsePoints
  {
    var s := StretchedAngles(nm);
    seq(EllipsePoints, i requires 0 <= i < EllipsePoints => Floored(RawFactor(s[i])))
  }

  /** The floor is the larger of the factor and 0.25. */
  lemma FlooredIsMax(f: real)
    ensures Floored(f) >= FactorFloor && Floored(f) >= f
    ensures Floored(f) == f || Floored(f) == FactorFloor
  {
  }

  /** Every factor of the table is at least 0.25, and it is the raw factor
      wherever that is at least 0.25. */
  lemma FactorsFloored(nm: Numerics, i: int)
    requires 0 <= i < EllipsePoints
    ensures CurvatureFactors(nm)[i] >= FactorFloor
    ensures RawFactor(StretchedAngles(nm)[i]) >= FactorFloor ==> CurvatureFactors(nm)[i] == RawFactor(StretchedAngles(nm)[i])
  {
    FlooredIsMax(RawFactor(StretchedAngles(nm)[i]));
  }

  /** A factor widens the ellipse exactly for picks within 10 degrees of
      straight ahead. */
  lemma WidensIff(s: real)
    ensures Floored(RawFactor(s)) > 1.0 <==> s < Pi / 18.0
  {
    assert RawFactor(s) > 1.0 <==> s * 180.0 / Pi < 10.0;
  }

  /** A backtracking pick always narrows the ellipse. */
  lemma BacktrackNarrows(s: real)
    requires s > BacktrackAngle
    ensures Floored(RawFactor(s)) < 1.0
  {
    WidensIff(s);
    assert s * 180.0 / Pi > 10.0;
  }

  /** `_termination_distance`: the square of the ellipse's length. */
  function TerminationDistance(b: BeaconSetup): real {
    Square(Times(Times(b.sigma, Stretching), b.beaconSize))
  }

  /** `np.sum((p - q) ** 2)` */
  function SquaredDistance(p: Vec2, q: Vec2): real {
    Square(p.0 - q.0) + Square(p.1 - q.1)
  }

  // ---------------------------------------------------------------------------
  // One pass of the loop (lines 519-547)

  /** `_rotate_clockwise` (lines 570-575) of one point by `phi`. */
  function RotateClockwise(nm: Numerics, p: Vec2, phi: real): Vec2 {
    (Times(nm.cos(phi), p.0) + Times(nm.sin(phi), p.1), Times(-nm.sin(phi), p.0) + Times(nm.cos(phi), p.1))
  }

  /** The search ellipse scaled by the curvature adjustment, turned by `phi`
      and moved to `coords` (lines 519-522). */
  function Candidates(b: BeaconSetup, adj: real, phi: real, coords: Vec2): (r: seq<Vec2>)
    ensures |r| == EllipsePoints
  {
    var e := SearchEllipse(b);
    seq(EllipsePoints, i requires 0 <= i < EllipsePoints =>
      var t := RotateClockwise(b.nm, (Times(e[i].0, adj), Times(e[i].1, adj)), phi);
      (t.0 + coords.0, t.1 + coords.1))
  }

  /** The cost at every candidate. */
  function CandidateCosts(b: BeaconSetup, cs: seq<Vec2>): (r: seq<real>)
    ensures |r| == |cs|
  {
    seq(|cs|, i requires 0 <= i < |cs| => PointCost(b, cs[i]))
  }

  /** Lines 520-528: the costs of the candidates, filled into a fresh array. */
  method EllipseCosts(b: BeaconSetup, cs: seq<Vec2>) returns (costs: array<real>)
    ensures fresh(costs) && costs[..] == CandidateCosts(b, cs)
  {
    costs := new real[|cs|];
    for i := 0 to |cs|
      invariant costs[..i] == CandidateCosts(b, cs)[..i]
    {
      costs[i] := PointCost(b, cs[i]);
      assert costs[..i + 1] == costs[..i] + [costs[i]];
      assert CandidateCosts(b, cs)[..i + 1] == CandidateCosts(b, cs)[..i] + [CandidateCosts(b, cs)[i]];
    }
    assert costs[..] == costs[..|cs|];
  }

  function Distance(v: real, target: real): real {
    if v >= target then v - target else target - v
  }

  /** `np.argmin(np.abs(values - target))`: the first index whose value is
      closest to `target`. */
  function ClosestIndex(values: seq<real>, target: real): (r: nat)
    requires |values| > 0
    ensures r < |values|
    ensures forall i :: 0 <= i < |values| ==> Distance(values[r], target) <= Distance(values[i], target)
    ensures forall i :: 0 <= i < r ==> Distance(values[i], target) > Distance(values[r], target)
  {
    if |values| == 1 then 0
    else
      var init := values[..|values| - 1];
      var best := ClosestIndex(init, target);
      assert forall i :: 0 <= i < |init| ==> init[i] == values[i];
      if Distance(values[|values| - 1], target) < Distance(values[best], target) then |values| - 1 else best
  }

  /** Lines 533-535: the product, capped at 1.0. */
  function Capped(x: real): real {
    if x > 1.0 then 1.0 else x
  }

  lemma ProductPositive(a: real, f: real)
    requires a > 0.0 && f > 0.0
    ensures Times(a, f) > 0.0
  {
  }

  /** The curvature adjustment stays in (0, 1] from one pass to the next,
      the factors being at least 0.25. */
  lemma CurvatureStaysInRange(nm: Numerics, adj: real, i: int)
    requires 0.0 < adj <= 1.0 && 0 <= i < EllipsePoints
    ensures 0.0 < Capped(Times(adj, CurvatureFactors(nm)[i])) <= 1.0
    ensures CurvatureFactors(nm)[i] <= 1.0 ==> Capped(Times(adj, CurvatureFactors(nm)[i])) == Times(adj, CurvatureFactors(nm)[i])
  {
    FactorsFloored(nm, i);
    var f := CurvatureFactors(nm)[i];
    ProductPositive(adj, f);
    if f <= 1.0 {
      ScaleAtMost(adj, f);
    }
  }

  /** Scaling a positive factor by at most one does not enlarge it. */
  lemma ScaleAtMost(a: real, f: real)
    requires 0.0 < a <= 1.0 && f > 0.0
    ensures Times(a, f) <= f
  {
    assert f - Times(a, f) == (1.0 - a) * f;
  }

  /** `_contour_coords[0:-1]` drops the last point, and leaves an empty list empty. */
  lemma DropLast(contour: seq<Vec2>)
    ensures |contour| > 0 ==> PySlice(contour, 0, -1) == contour[..|contour| - 1]
    ensures |contour| == 0 ==> PySlice(contour, 0, -1) == []
  {
  }

  /** One pass up to the stop tests (lines 515-542): evaluate the candidates,
      pick the one closest to the level, update the curvature adjustment, and
      either drop the last contour point (a backtrack) or append the pick. */
  method BeaconPass(b: BeaconSetup, coords: Vec2, phi: real, adj: real, contour: seq<Vec2>)
    returns (adj': real, contour': seq<Vec2>, pick: nat, backtracked: bool)
    requires 0.0 < adj <= 1.0 && |contour| >= 1
    ensures PassTaken(b, coords, phi, adj, contour, adj', contour', pick, backtracked)
    ensures 0.0 < adj' <= 1.0
    ensures backtracked ==> adj' < adj
    ensures |contour'| == if backtracked then |contour| - 1 else |contour| + 1
    ensures |contour'| > 0 ==> contour'[0] == contour[0]
  {
    var cs := Candidates(b, adj, phi, coords);
    var costs := EllipseCosts(b, cs);
    pick := ClosestIndex(costs[..], Level(b));
    var newCoords := cs[pick];
    var factors := CurvatureFactors(b.nm);
    adj' := Times(adj, factors[pick]);
    if adj' > 1.0 {
      adj' := 1.0;
    }
    CurvatureStaysInRange(b.nm, adj, pick);
    backtracked := StretchedAngles(b.nm)[pick] > BacktrackAngle;
    if backtracked {
      BacktrackNarrows(StretchedAngles(b.nm)[pick]);
      ShrinkBelow(adj, factors[pick]);
      DropLast(contour);
      contour' := PySlice(contour, 0, -1);
    } else {
      contour' := contour + [newCoords];
    }
  }

  /** What one pass does: it picks the first candidate whose cost is closest
      to the level, multiplies the curvature adjustment by that candidate's
      factor and caps it at 1.0, and backtracks, dropping the last point,
      exactly when the pick's stretched angle exceeds the threshold, or else
      appends the pick. */
  ghost predicate PassTaken(b: BeaconSetup, coords: Vec2, phi: real, adj: real, contour: seq<Vec2>,
                            adj': real, contour': seq<Vec2>, pick: nat, backtracked: bool) {
    var cs := Candidates(b, adj, phi, coords);
    && pick == ClosestIndex(CandidateCosts(b, cs), Level(b))
    && adj' == Capped(Times(adj, CurvatureFactors(b.nm)[pick]))
    && backtracked == (StretchedAngles(b.nm)[pick] > BacktrackAngle)
    && contour' == if backtracked then PySlice(contour, 0, -1) else contour + [cs[pick]]
  }

  lemma ShrinkBelow(adj: real, f: real)
    requires adj > 0.0 && f < 1.0
    ensures Times(adj, f) < adj
  {
  }

  // ---------------------------------------------------------------------------
  // The tracer (lines 478-557)

  /** The loop of lines 513-555 from the start point. An empty result is the
      run that backtracked past the start, where `_contour_coords[-1]` raises. */
  method TraceFrom(b: BeaconSetup, start: Vec2)
    returns (contour: seq<Vec2>, ghost passes: nat, ghost appended: nat, ghost removed: nat)
    ensures contour == [] ==> removed == appended + 1 && passes <= MaxLoops + 1
    ensures contour != [] ==> contour[0] == start
    ensures |contour| <= MaxLoops + 2
    ensures contour != [] ==> MinLoops + 2 <= passes <= MaxLoops + 1
    ensures contour != [] && passes < MaxLoops + 1 ==> SquaredDistance(contour[|contour| - 1], start) < TerminationDistance(b)
    ensures |contour| == 1 + appended - removed && appended + removed == passes
  {
    passes, appended, removed := 0, 0, 0;
    var phi := TangentialAngle(b, start);
    var coords := start;
    var adj := 1.0;
    var loops := 0;
    contour := [start];
    while true
      invariant 0 <= loops <= MaxLoops && passes == loops
      invariant 0.0 < adj <= 1.0
      invariant |contour| >= 1 && contour[0] == start && coords == contour[|contour| - 1]
      invariant |contour| == 1 + appended - removed && appended + removed == passes
      invariant |contour| <= passes + 1
      decreases MaxLoops - loops
    {
      var pick, backtracked;
      adj, contour, pick, backtracked := BeaconPass(b, coords, phi, adj, contour);
      passes := passes + 1;
      if backtracked {
        removed := removed + 1;
      } else {
        appended := appended + 1;
      }
      if |contour| == 0 {
        return;
      }
      coords := contour[|contour| - 1];
      phi := TangentialAngle(b, coords);
      if SquaredDistance(coords, start) < TerminationDistance(b) && loops > MinLoops {
        return;
      }
      if loops < MaxLoops {
        loops := loops + 1;
      } else {
        return;
      }
    }
  }

  /** `_contour_beacon`: the loop, with the pieces the source hands to `ContourFactory`: the
      contour in parameter values. `contour` is the list in units of the
      errors; `passes` counts the loop passes, each of which either
      `appended` a point or `removed` one.

      The root finder failing is the only way `RootNotFound` arises; the
      list running empty, so that `_contour_coords[-1]` raises, the only other
      error. A finished run made between 12 and 201 passes: it stops early
      only after more than 10 counted passes and within the termination
      distance of the start, and otherwise after the 201st. Its contour
      starts at the start point on the first axis, and the result is that
      contour transformed to parameter values, in order. */
  method ContourBeacon(b: BeaconSetup)
    returns (res: Result<seq<Vec2>>, ghost contour: seq<Vec2>, ghost passes: nat, ghost appended: nat, ghost removed: nat)
    ensures res == Err(RootNotFound) <==> b.nm.brentq(MetaCost(b), 0.0, 2.0 * b.sigma, 1000).None?
    ensures res.Err? ==> res.error == RootNotFound || res.error == EmptyListIndex
    ensures res == Err(EmptyListIndex) ==> contour == [] && removed == appended + 1 && passes <= MaxLoops + 1
    ensures res.Ok? ==> MinLoops + 2 <= passes <= MaxLoops + 1
    ensures res.Ok? ==>
      var start := (b.nm.brentq(MetaCost(b), 0.0, 2.0 * b.sigma, 1000).value, 0.0);
      && |contour| >= 1 && contour[0] == start
      && (passes < MaxLoops + 1 ==> SquaredDistance(contour[|contour| - 1], start) < TerminationDistance(b))
    ensures res.Err? || |contour| == 1 + appended - removed
    ensures res == Err(RootNotFound) || appended + removed == passes
    ensures res.Ok? ==> res.value == TransformedContour(b.minimum, contour, b.err)
  {
    contour, passes, appended, removed := [], 0, 0, 0;
    var root := b.nm.brentq(MetaCost(b), 0.0, 2.0 * b.sigma, 1000);
    if root.None? {
      return Err(RootNotFound), contour, passes, appended, removed;
    }
    var traced;
    traced, passes, appended, removed := TraceFrom(b, (root.value, 0.0));
    contour := traced;
    if traced == [] {
      return Err(EmptyListIndex), contour, passes, appended, removed;
    }
    var transformed := TransformContour(b.minimum, traced, b.err);
    res := Ok(transformed);
  }
}
