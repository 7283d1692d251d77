/**
 * The minimizer object (`MinimizerScipyOptimize`): the parameter state it
 * keeps, its setters and limits, one minimization with the covariance
 * bookkeeping that follows it, the cached function value, the contour
 * dispatcher and its two tracers, and the profile scan. The cost function
 * and scipy are the oracles of `Solver`.
 */
module Minimizer {
  import opened PyBase
  import opened Solver
  import opened ContourPoints
  import GridTracer
  import Beacon

  // ---------------------------------------------------------------------------
  // Parameter bounds (`limit` and `unlimit`, lines 139-148)

  /** The bounds after parameter `i` gets bound `b`: a bound list that did not
      exist yet is first filled with open bounds, and no other entry changes. */
  function UpdatedBounds(bounds: Option<seq<Bound>>, n: nat, i: nat, b: Bound): (r: seq<Bound>)
    requires i < n && (bounds.Some? ==> |bounds.value| == n)
    ensures |r| == n && r[i] == b
    ensures forall j :: 0 <= j < n && j != i ==> r[j] == if bounds.Some? then bounds.value[j] else Unbounded
  {
    (if bounds.Some? then bounds.value else seq(n, _ => Unbounded))[i := b]
  }

  /** Limiting and then unlimiting one parameter leaves it open and every
      other bound as it was; on a parameter that was open this is the bound
      list it started from. */
  lemma LimitThenUnlimit(bounds: seq<Bound>, i: nat, b: Bound)
    requires i < |bounds|
    ensures var n := |bounds|;
      UpdatedBounds(Some(UpdatedBounds(Some(bounds), n, i, b)), n, i, Unbounded) == UpdatedBounds(Some(bounds), n, i, Unbounded)
    ensures bounds[i] == Unbounded ==> UpdatedBounds(Some(UpdatedBounds(Some(bounds), |bounds|, i, b)), |bounds|, i, Unbounded) == bounds
  {
  }

  /** Limits on two different parameters can be set in either order, and the
      second of two limits on one parameter wins. */
  lemma LimitsCommute(bounds: Option<seq<Bound>>, n: nat, i: nat, j: nat, b: Bound, c: Bound)
    requires i < n && j < n && (bounds.Some? ==> |bounds.value| == n)
    ensures i != j ==>
      UpdatedBounds(Some(UpdatedBounds(bounds, n, i, b)), n, j, c) == UpdatedBounds(Some(UpdatedBounds(bounds, n, j, c)), n, i, b)
    ensures UpdatedBounds(Some(UpdatedBounds(bounds, n, i, b)), n, i, c) == UpdatedBounds(bounds, n, i, c)
  {
    var first := UpdatedBounds(bounds, n, i, b);
    if i != j {
      var l := UpdatedBounds(Some(first), n, j, c);
      var r := UpdatedBounds(Some(UpdatedBounds(bounds, n, j, c)), n, i, b);
      assert forall k :: 0 <= k < n ==> l[k] == r[k];
    }
    var l := UpdatedBounds(Some(first), n, i, c);
    var r := UpdatedBounds(bounds, n, i, c);
    assert forall k :: 0 <= k < n ==> l[k] == r[k];
  }

  // ---------------------------------------------------------------------------
  // The covariance after a minimization (lines 176-180)

  /** `hessian_inv * 2.0 * err_def`, element by element. */
  function Covariance(h: Matrix, errDef: real): (c: Matrix)
    ensures |c| == |h| && forall i :: 0 <= i < |h| ==> |c[i]| == |h[i]|
  {
    seq(|h|, i requires 0 <= i < |h| => seq(|h[i]|, j requires 0 <= j < |h[i]| => Times(Times(h[i][j], 2.0), errDef)))
  }

  /** `np.sqrt(np.diag(cov))` of a square matrix. */
  function Errors(nm: Numerics, cov: Matrix): (e: seq<real>)
    requires IsSquare(cov, |cov|)
    ensures |e| == |cov|
  {
    seq(|cov|, i requires 0 <= i < |cov| => nm.sqrt(cov[i][i]))
  }

  /** The covariance of a square inverse Hessian is square of the same size,
      and each error is the root of twice the error definition times the
      inverse Hessian's diagonal entry. */
  lemma ErrorsFromHessian(nm: Numerics, h: Matrix, n: nat, errDef: real)
    requires IsSquare(h, n)
    ensures IsSquare(Covariance(h, errDef), n)
    ensures |Errors(nm, Covariance(h, errDef))| == n
    ensures forall i :: 0 <= i < n ==> Errors(nm, Covariance(h, errDef))[i] == nm.sqrt(Times(Times(h[i][i], 2.0), errDef))
  {
  }

  // ---------------------------------------------------------------------------
  // The contour dispatcher's keywords (lines 185-205)

  /** `kwargs.pop(key, default)`, read side. */
  function Pop(kwargs: map<string, Value>, key: string, default: Value): Value {
    if key in kwargs then kwargs[key] else default
  }

  const GridKeys: set<string> := {"initial_points", "iterations", "area_scale_factor"}

  /** What the dispatcher settles on: a tracer and its arguments. */
  datatype ContourRequest = BeaconRequest | GridRequest(initialPoints: Value, iterations: Value, areaScaleFactor: Value)

  /** The keyword handling of `contour`. The algorithm defaults to the grid
      tracer, whose three arguments default to 1, 5 and 1.5; an unknown
      algorithm raises, and so does any keyword the chosen tracer does not
      take. */
  function ParseContourKwargs(kwargs: map<string, Value>): (r: Result<ContourRequest>)
    ensures var alg := Pop(kwargs, "algorithm", Text("heuristic_grid"));
      alg != Text("beacon") && alg != Text("heuristic_grid") ==> r == Err(UnknownAlgorithm(alg))
    ensures r.Ok? ==> (r.value.BeaconRequest? <==> Pop(kwargs, "algorithm", Text("heuristic_grid")) == Text("beacon"))
    ensures r.Ok? && r.value.GridRequest? ==>
      r.value == GridRequest(Pop(kwargs, "initial_points", Int(1)), Pop(kwargs, "iterations", Int(5)),
                             Pop(kwargs, "area_scale_factor", Float(1.5)))
  {
    var alg := Pop(kwargs, "algorithm", Text("heuristic_grid"));
    var rest := kwargs.Keys - {"algorithm"};
    if alg == Text("beacon") then
      if rest != {} then Err(UnknownParameters("beacon", rest)) else Ok(BeaconRequest)
    else if alg == Text("heuristic_grid") then
      if rest - GridKeys != {} then Err(UnknownParameters("heuristic_grid", rest - GridKeys))
      else Ok(GridRequest(Pop(kwargs, "initial_points", Int(1)), Pop(kwargs, "iterations", Int(5)),
                          Pop(kwargs, "area_scale_factor", Float(1.5))))
    else Err(UnknownAlgorithm(alg))
  }

  /** A known algorithm is accepted exactly when every keyword besides
      `algorithm` is one its tracer takes; the rejected keywords are the
      ones the error lists. */
  lemma ContourKwargsAccepted(kwargs: map<string, Value>)
    ensures var alg := Pop(kwargs, "algorithm", Text("heuristic_grid"));
      alg == Text("beacon") ==>
        (ParseContourKwargs(kwargs).Ok? <==> kwargs.Keys <= {"algorithm"})
        && (ParseContourKwargs(kwargs).Err? ==> ParseContourKwargs(kwargs).error == UnknownParameters("beacon", kwargs.Keys - {"algorithm"}))
    ensures var alg := Pop(kwargs, "algorithm", Text("heuristic_grid"));
      alg == Text("heuristic_grid") ==>
        (ParseContourKwargs(kwargs).Ok? <==> kwargs.Keys <= {"algorithm"} + GridKeys)
        && (ParseContourKwargs(kwargs).Err? ==>
              ParseContourKwargs(kwargs).error == UnknownParameters("heuristic_grid", kwargs.Keys - ({"algorithm"} + GridKeys)))
  {
    var rest := kwargs.Keys - {"algorithm"};
    assert rest == {} <==> kwargs.Keys <= {"algorithm"};
    assert rest - GridKeys == kwargs.Keys - ({"algorithm"} + GridKeys);
    assert rest - GridKeys == {} <==> kwargs.Keys <= {"algorithm"} + GridKeys by {
      if rest - GridKeys == {} {
        forall k | k in kwargs.Keys ensures k in {"algorithm"} + GridKeys {
          assert k !in rest - GridKeys;
        }
      }
    }
  }

  /** Without keywords the grid tracer runs with its defaults. */
  lemma ContourDefaults()
    ensures ParseContourKwargs(map[]) == Ok(GridRequest(Int(1), Int(5), Float(1.5)))
  {
    var empty: map<string, Value> := map[];
    assert empty.Keys - {"algorithm"} == {};
  }

  // ---------------------------------------------------------------------------
  // The profile scan (lines 597-608)

  /** The pinned minimum at each scan point: `_calc_fun_with_constraints` with
      the parameter `id` pinned to the point. */
  function ProfileValues(s: SolverSetup, id: nat, par: seq<real>): (y: seq<real>)
    ensures |y| == |par|
  {
    seq(|par|, i requires 0 <= i < |par| => ConstrainedCost(s, [Pin(id, par[i])]))
  }

  /** The scan as written: `_y_offset` is computed and never used, so the
      curve is the same whatever the offset. */
  function ProfileCurveAsWritten(s: SolverSetup, id: nat, par: seq<real>, offset: real): (y: seq<real>)
    ensures |y| == |par|
  {
    ProfileValues(s, id, par)
  }

  /** The scan as intended: every value relative to the offset. */
  function ProfileCurve(s: SolverSetup, id: nat, par: seq<real>, offset: real): (y: seq<real>)
    ensures |y| == |par|
  {
    var v := ProfileValues(s, id, par);
    seq(|par|, i requires 0 <= i < |par| => v[i] - offset)
  }

  /** As written, `subtract_min` does not move the curve: a non-zero function
      value leaves every point where it was, and the curve differs from the
      intended one at every point. */
  lemma ProfileOffsetIgnored(s: SolverSetup, id: nat, par: seq<real>, functionValue: real)
    ensures ProfileCurveAsWritten(s, id, par, functionValue) == ProfileCurveAsWritten(s, id, par, 0.0)
    ensures functionValue != 0.0 ==>
      forall i :: 0 <= i < |par| ==> ProfileCurveAsWritten(s, id, par, functionValue)[i] != ProfileCurve(s, id, par, functionValue)[i]
  {
  }

  /** The intended curve is the pinned minimum less the offset at every
      point; with no offset it is the plain scan. */
  lemma ProfileCurveShift(s: SolverSetup, id: nat, par: seq<real>, offset: real)
    ensures forall i :: 0 <= i < |par| ==> ProfileCurve(s, id, par, offset)[i] == ConstrainedCost(s, [Pin(id, par[i])]) - offset
    ensures ProfileCurve(s, id, par, 0.0) == ProfileValues(s, id, par)
  {
  }

  /** The loop of lines 604-606: an array of the pinned minima at the scan
      points, each less `offset`. */
  method ScanCosts(s: SolverSetup, id: nat, par: seq<real>, offset: real) returns (y: seq<real>)
    ensures y == ProfileCurve(s, id, par, offset)
  {
    var a := new real[|par|];
    for i := 0 to |par|
      invariant forall k :: 0 <= k < i ==> a[k] == ConstrainedCost(s, [Pin(id, par[k])]) - offset
    {
      a[i] := ConstrainedCost(s, [Pin(id, par[i])]) - offset;
    }
    y := a[..];
  }

  /** The scan points: `bins` evenly spaced values across `bound` errors on
      either side of the parameter's value. */
  function ScanPoints(value: real, err: real, bound: real, bins: nat): (par: seq<real>)
    ensures |par| == bins
    ensures bins >= 1 ==> par[0] == value - Times(bound, err)
    ensures bins >= 2 ==> par[bins - 1] == value + Times(bound, err)
  {
    Linspace(value - Times(bound, err), value + Times(bound, err), bins)
  }

  /** What the grid tracer gives for the checked sizes `size` and two known
      names, run from `solver` with the named parameters' `values` and
      `errs` and the function value `fv`: `GridTracer.HeuristicGrid`'s
      contract. */
  ghost predicate GridTraced(nm: Numerics, solver: SolverSetup, names: seq<string>, values: seq<real>, errs: seq<real>,
                             fv: real, size: (nat, nat), asWritten: bool, name1: string, name2: string, sigma: real,
                             areaScaleFactor: Value, res: Result<GridTracer.GridContour>, t: GridTracer.GridTrace)
    requires name1 in names && name2 in names && |values| == |errs| == |names|
  {
    var i, j := IndexOf(names, name1).value, IndexOf(names, name2).value;
    && (areaScaleFactor.Text? ==> res == Err(NotANumber("area_scale_factor")))
    && (areaScaleFactor == Int(0) || areaScaleFactor == Float(0.0) ==> res == Err(DivisionByZero))
    && (!areaScaleFactor.Text? ==>
          GridTracer.Traced(solver, (i, j), (values[i], values[j]), (errs[i], errs[j]), fv, sigma, size.0, size.1,
                            GridTracer.RealArg("area_scale_factor", areaScaleFactor).value, t))
    && (res.Ok? ==> GridTracer.ContourOf(nm, res.value, t.full, t.setup, t.minFun,
                                         SliceIndex(t.left, |t.full|), SliceIndex(t.bottom, |t.full|)))
    && (GridTracer.Padding(areaScaleFactor, size.1).Ok? ==>
          GridTracer.CropEnds(res, t.full, t.setup.xValues, GridTracer.ContourLevel(t.minFun, sigma),
                              GridTracer.Padding(areaScaleFactor, size.1).value, asWritten,
                              t.left, t.right, t.bottom, t.top))
    && (GridTracer.Padding(areaScaleFactor, size.1).Ok? && GridTracer.Padding(areaScaleFactor, size.1).value >= 0 ==>
          GridTracer.CropOutcome(res, t.full, GridTracer.ContourLevel(t.minFun, sigma),
                                 GridTracer.Padding(areaScaleFactor, size.1).value, asWritten,
                                 t.left, t.right, t.bottom, t.top))
  }

  /** What `contour` returns, by tracer. */
  datatype ContourOutput = GridOut(grid: GridTracer.GridContour) | BeaconOut(points: seq<Vec2>)

  /** The tracer a `contour` call ran, with its own result and what it went
      through: the grids of the heuristic grid, or the beacon's setup and
      the contour it traced before the transformation back. */
  datatype ContourRun =
    | NoRun
    | GridRun(gridResult: Result<GridTracer.GridContour>, trace: GridTracer.GridTrace)
    | BeaconRun(beaconResult: Result<seq<Vec2>>, setup: Beacon.BeaconSetup, contour: seq<Vec2>)

  // ---------------------------------------------------------------------------
  // The minimizer object

  class MinimizerScipyOptimize {
    var parNames: seq<string>
    var parVal: seq<real>
    var parErr: seq<real>
    /** The scipy method name, `"slsqp"` by default. */
    var algorithm: string
    var parBounds: Option<seq<Bound>>
    var parFixed: seq<bool>
    var parConstraints: seq<Constraint>
    /** The function to minimize, called with the parameter values. */
    const cost: seq<real> -> real
    const numerics: Numerics
    var errDef: real
    var tol: real
    var hessianInv: Option<Matrix>
    /** The cache behind `function_value`. */
    var fval: Option<real>
    var covMat: Option<Matrix>
    var optResult: Option<OptResult>

    /** The object's invariant: one value, one error and one fixed flag per
        name, a bound per name once there are bounds, no parameter fixed
        (`fix` raises before it sets a flag), positive error definition and
        tolerance, and numerics of the shapes scipy and numpy return. */
    ghost predicate Valid()
      reads this
    {
      && |parVal| == |parNames| && |parErr| == |parNames| && |parFixed| == |parNames|
      && (forall i :: 0 <= i < |parFixed| ==> !parFixed[i])
      && (parBounds.Some? ==> |parBounds.value| == |parNames|)
      && errDef > 0.0 && tol > 0.0
      && WellShaped(numerics)
    }

    /** Every field but the function-value cache is as it was. */
    twostate predicate SameButCache()
      reads this
    {
      && parNames == old(parNames) && parVal == old(parVal) && parErr == old(parErr)
      && algorithm == old(algorithm) && parBounds == old(parBounds) && parFixed == old(parFixed)
      && parConstraints == old(parConstraints) && errDef == old(errDef) && tol == old(tol)
      && hessianInv == old(hessianInv) && covMat == old(covMat) && optResult == old(optResult)
    }

    /** The constructor (lines 15-45): no bounds, nothing fixed, no
        constraints, error definition 1.0, tolerance 1e-6, empty caches. */
    constructor (names: seq<string>, values: seq<real>, errors: seq<real>, cost: seq<real> -> real,
                 numerics: Numerics, algorithm: string)
      requires |values| == |names| && |errors| == |names| && WellShaped(numerics)
      ensures Valid()
      ensures parNames == names && parVal == values && parErr == errors && this.algorithm == algorithm
      ensures this.cost == cost && this.numerics == numerics
      ensures parBounds == None && parFixed == seq(|names|, _ => false) && parConstraints == []
      ensures errDef == 1.0 && tol == 0.000001
      ensures hessianInv == None && fval == None && covMat == None && optResult == None
    {
      parNames, parVal, parErr, this.algorithm := names, values, errors, algorithm;
      parBounds := None;
      parFixed := seq(|names|, _ => false);
      parConstraints := [];
      this.cost, this.numerics := cost, numerics;
      errDef, tol := 1.0, 0.000001;
      hessianInv, fval, covMat, optResult := None, None, None, None;
    }

    /** What `_calc_fun_with_constraints` reads of the object. */
    function Setup(): SolverSetup
      reads this
    {
      SolverSetup(numerics, cost, parVal, parBounds, parConstraints, tol)
    }

    /** `_get_opt_result` (lines 49-52). */
    function GetOptResult(): (r: Result<OptResult>)
      reads this
      ensures r.Err? <==> optResult.None?
      ensures r.Err? ==> r.error == NoFitPerformed
      ensures r.Ok? ==> r.value == optResult.value
    {
      if optResult.None? then Err(NoFitPerformed) else Ok(optResult.value)
    }

    /** The value `function_value` returns: the cache, or else the cost at the
        current values. */
    function CachedValue(): real
      reads this
    {
      if fval.Some? then fval.value else cost(parVal)
    }

    /** `function_value` (lines 96-100): the cost at the current values,
        computed once and then kept. */
    method FunctionValue() returns (v: real)
      modifies this
      ensures v == old(CachedValue()) && fval == Some(v)
      ensures SameButCache()
    {
      if fval.None? {
        fval := Some(cost(parVal));
      }
      v := fval.value;
    }

    /** `fix` (lines 119-123) when `fixed` holds, `release` (lines 130-133)
        otherwise. Both raise before they look the name up, so no flag is ever
        set and the object is left as it was. */
    method SetFixed(name: string, fixed: bool) returns (r: Result<()>)
      ensures r == Err(NotImplemented)
    {
      r := Err(NotImplemented);
    }

    /** `fix_several` (lines 126-128) and `release_several` (lines 135-137):
        the first call raises and ends the loop, so only an empty list
        succeeds. */
    method SetFixedSeveral(names: seq<string>, fixed: bool) returns (r: Result<()>)
      ensures r.Ok? <==> |names| == 0
      ensures r.Err? ==> r.error == NotImplemented
    {
      r := Ok(());
      var k := 0;
      while k < |names| && r.Ok?
        invariant 0 <= k <= |names|
        invariant r.Ok? <==> k == 0
        invariant r.Err? ==> r.error == NotImplemented
      {
        r := SetFixed(names[k], fixed);
        k := k + 1;
      }
    }

    /** The `errordef` setter (lines 60-63): positive values only. */
    method SetErrorDef(v: real) returns (r: Result<()>)
      requires Valid()
      modifies this
      ensures Valid()
      ensures r.Ok? <==> v > 0.0
      ensures r.Err? ==> r.error == AssertionFailed && errDef == old(errDef)
      ensures r.Ok? ==> errDef == v
      ensures parNames == old(parNames) && parVal == old(parVal) && parErr == old(parErr) && tol == old(tol)
      ensures parBounds == old(parBounds) && parFixed == old(parFixed) && parConstraints == old(parConstraints)
      ensures fval == old(fval) && hessianInv == old(hessianInv) && covMat == old(covMat) && optResult == old(optResult)
      ensures algorithm == old(algorithm)
    {
      if v > 0.0 {
        errDef := v;
        r := Ok(());
      } else {
        r := Err(AssertionFailed);
      }
    }

    /** The `tolerance` setter (lines 70-73): positive values only. */
    method SetTolerance(v: real) returns (r: Result<()>)
      requires Valid()
      modifies this
      ensures Valid()
      ensures r.Ok? <==> v > 0.0
      ensures r.Err? ==> r.error == AssertionFailed && tol == old(tol)
      ensures r.Ok? ==> tol == v
      ensures parNames == old(parNames) && parVal == old(parVal) && parErr == old(parErr) && errDef == old(errDef)
      ensures parBounds == old(parBounds) && parFixed == old(parFixed) && parConstraints == old(parConstraints)
      ensures fval == old(fval) && hessianInv == old(hessianInv) && covMat == old(covMat) && optResult == old(optResult)
      ensures algorithm == old(algorithm)
    {
      if v > 0.0 {
        tol := v;
        r := Ok(());
      } else {
        r := Err(AssertionFailed);
      }
    }

    /** `limit` (lines 139-144): the bounds must be a pair; the name must be
        known; the first limit creates open bounds for every parameter. The
        pair is not checked for order. */
    method Limit(name: string, bounds: seq<Option<real>>) returns (r: Result<()>)
      requires Valid()
      modifies this
      ensures Valid()
      ensures |bounds| != 2 ==> r == Err(AssertionFailed)
      ensures |bounds| == 2 && name !in parNames ==> r == Err(NotInList(name))
      ensures r.Ok? <==> |bounds| == 2 && name in parNames
      ensures r.Err? ==> parBounds == old(parBounds)
      ensures parNames == old(parNames) && parVal == old(parVal) && parErr == old(parErr) && errDef == old(errDef)
      ensures tol == old(tol) && parFixed == old(parFixed) && parConstraints == old(parConstraints)
      ensures fval == old(fval) && hessianInv == old(hessianInv) && covMat == old(covMat) && optResult == old(optResult)
      ensures algorithm == old(algorithm)
      ensures r.Ok? ==>
        parBounds == Some(UpdatedBounds(old(parBounds), |parNames|, IndexOf(parNames, name).value, Bound(bounds[0], bounds[1])))
    {
      if |bounds| != 2 {
        return Err(AssertionFailed);
      }
      var id := IndexOf(parNames, name);
      if id.Err? {
        return Err(id.error);
      }
      parBounds := Some(UpdatedBounds(parBounds, |parNames|, id.value, Bound(bounds[0], bounds[1])));
      r := Ok(());
    }

    /** `unlimit` (lines 146-148): the name must be known, and there must be
        bounds already, or the item assignment on `None` raises. */
    method Unlimit(name: string) returns (r: Result<()>)
      requires Valid()
      modifies this
      ensures Valid()
      ensures name !in parNames ==> r == Err(NotInList(name))
      ensures name in parNames && old(parBounds).None? ==> r == Err(NoneNotSubscriptable)
      ensures r.Ok? <==> name in parNames && old(parBounds).Some?
      ensures r.Err? ==> parBounds == old(parBounds)
      ensures parNames == old(parNames) && parVal == old(parVal) && parErr == old(parErr) && errDef == old(errDef)
      ensures tol == old(tol) && parFixed == old(parFixed) && parConstraints == old(parConstraints)
      ensures fval == old(fval) && hessianInv == old(hessianInv) && covMat == old(covMat) && optResult == old(optResult)
      ensures algorithm == old(algorithm)
      ensures r.Ok? ==> parBounds == Some(UpdatedBounds(old(parBounds), |parNames|, IndexOf(parNames, name).value, Unbounded))
    {
      var id := IndexOf(parNames, name);
      if id.Err? {
        return Err(id.error);
      }
      if parBounds.None? {
        return Err(NoneNotSubscriptable);
      }
      parBounds := Some(UpdatedBounds(parBounds, |parNames|, id.value, Unbounded));
      r := Ok(());
    }

    /** The settings a minimization leaves alone. */
    twostate predicate SettingsKept()
      reads this
    {
      && parNames == old(parNames) && algorithm == old(algorithm) && parBounds == old(parBounds)
      && parFixed == old(parFixed) && errDef == old(errDef) && tol == old(tol)
    }

    /** The state after the inverse Hessian `h` is adopted at an optimum of
        cost `fun`: `h` times twice the error definition is the covariance,
        the roots of its diagonal are the errors, and `fun` is the cached
        function value. */
    ghost predicate Adopted(h: Matrix, fun: real)
      reads this
    {
      && IsSquare(h, |parNames|)
      && hessianInv == Some(h) && covMat == Some(Covariance(h, errDef))
      && parErr == Errors(numerics, Covariance(h, errDef)) && fval == Some(fun)
    }

    /** Lines 165-173 after a successful inversion. */
    method AdoptHessian(h: Matrix, fun: real)
      requires Valid() && IsSquare(h, |parNames|)
      modifies this
      ensures Valid() && SettingsKept() && Adopted(h, fun)
      ensures parVal == old(parVal) && parConstraints == old(parConstraints) && optResult == old(optResult)
    {
      hessianInv := Some(h);
      ErrorsFromHessian(numerics, h, |parNames|, errDef);
      var cov := Covariance(h, errDef);
      covMat := Some(cov);
      parErr := Errors(numerics, cov);
      fval := Some(fun);
    }

    /** `minimize` (lines 153-182). The fix constraints are rebuilt; since no
        parameter can be fixed the list ends up empty. scipy minimizes from
        the current values under the bounds; the optimum becomes the values.
        The Hessian at the optimum is inverted (a singular one raises, and
        the errors, the covariance and the cached function value then stay
        as they were); its double, times the error definition, is the
        covariance, whose diagonal's roots are the new errors; the optimum's
        cost becomes the cached function value. */
    method Minimize(maxCalls: int) returns (r: Result<()>)
      requires Valid()
      modifies this
      ensures Valid() && SettingsKept()
      ensures var o := numerics.minimize(Problem(cost, old(parVal), old(parBounds), [], old(algorithm), old(tol), maxCalls));
        && optResult == Some(o) && parVal == o.x && parConstraints == []
        && (r.Err? <==> numerics.hessianInverse(cost, o.x).None?)
        && (r.Err? ==> r.error == SingularMatrix && hessianInv == old(hessianInv) && covMat == old(covMat)
                       && parErr == old(parErr) && fval == old(fval))
        && (r.Ok? ==> Adopted(numerics.hessianInverse(cost, o.x).value, o.fun))
    {
      parConstraints := [];
      var o := numerics.minimize(Problem(cost, parVal, parBounds, parConstraints, algorithm, tol, maxCalls));
      optResult := Some(o);
      parVal := o.x;
      var h := numerics.hessianInverse(cost, parVal);
      if h.None? {
        return Err(SingularMatrix);
      }
      AdoptHessian(h.value, o.fun);
      r := Ok(());
    }

    /** `contour` (lines 185-205): the keywords pick the tracer and its
        arguments, and a bad keyword raises before anything is evaluated.
        Otherwise the tracer picked runs, as `GridOutcome` (with the checks
        and the crop as intended) or `BeaconOutcome` states, and its result
        or its exception is the call's; `inner` is that run. */
    method Contour(name1: string, name2: string, sigma: real, kwargs: map<string, Value>)
      returns (res: Result<ContourOutput>, ghost inner: ContourRun)
      requires Valid()
      modifies this
      ensures Valid() && SameButCache()
      ensures ParseContourKwargs(kwargs).Err? ==>
        res == Err(ParseContourKwargs(kwargs).error) && fval == old(fval) && inner == NoRun
      ensures ParseContourKwargs(kwargs).Ok? && ParseContourKwargs(kwargs).value.GridRequest? ==>
        var q := ParseContourKwargs(kwargs).value;
        && inner.GridRun?
        && GridOutcome(GridTracer.GridArguments(q.initialPoints, q.iterations), false, name1, name2, sigma,
                       q.areaScaleFactor, inner.gridResult, inner.trace)
        && res == (if inner.gridResult.Ok? then Ok(GridOut(inner.gridResult.value)) else Err(inner.gridResult.error))
      ensures ParseContourKwargs(kwargs) == Ok(BeaconRequest) ==>
        && inner.BeaconRun?
        && BeaconOutcome(name1, name2, sigma, inner.beaconResult, inner.setup, inner.contour)
        && res == (if inner.beaconResult.Ok? then Ok(BeaconOut(inner.beaconResult.value)) else Err(inner.beaconResult.error))
    {
      inner := NoRun;
      var request := ParseContourKwargs(kwargs);
      if request.Err? {
        return Err(request.error), inner;
      }
      match request.value
      case BeaconRequest =>
        var r, setup, contour := ContourBeacon(name1, name2, sigma);
        inner := BeaconRun(r, setup, contour);
        if r.Err? {
          return Err(r.error), inner;
        }
        res := Ok(BeaconOut(r.value));
      case GridRequest(initialPoints, iterations, areaScaleFactor) =>
        var r, t := ContourHeuristicGrid(name1, name2, sigma, initialPoints, iterations, areaScaleFactor);
        inner := GridRun(r, t);
        if r.Err? {
          return Err(r.error), inner;
        }
        res := Ok(GridOut(r.value));
    }

    /** What `_contour_heuristic_grid` does once the integer arguments have
        been checked to give `args` (lines 288-302 and 324): a bad argument
        raises first, then an unknown name. For two known names the
        function value is read (and so cached) once the area factor has
        proved numeric, and the tracer runs as `GridTracer.HeuristicGrid`
        states, from the old values, errors and solver state, with `t` the
        grids it went through. */
    twostate predicate GridOutcome(args: Result<(nat, nat)>, asWritten: bool, name1: string, name2: string, sigma: real,
                                   areaScaleFactor: Value, new res: Result<GridTracer.GridContour>,
                                   new t: GridTracer.GridTrace)
      reads this
    {
      && (args.Err? ==> res == Err(args.error) && fval == old(fval))
      && (args.Ok? && name1 !in old(parNames) ==> res == Err(NotInList(name1)) && fval == old(fval))
      && (args.Ok? && name1 in old(parNames) && name2 !in old(parNames) ==> res == Err(NotInList(name2)) && fval == old(fval))
      && (args.Ok? && name1 in old(parNames) && name2 in old(parNames) && |old(parVal)| == |old(parErr)| == |old(parNames)| ==>
            && fval == (if areaScaleFactor.Text? then old(fval) else Some(old(CachedValue())))
            && GridTraced(numerics, old(Setup()), old(parNames), old(parVal), old(parErr), old(CachedValue()),
                          args.value, asWritten, name1, name2, sigma, areaScaleFactor, res, t))
    }

    /** `_contour_heuristic_grid` for the checked arguments `args`, with the
        crop as written or as intended. */
    method RunHeuristicGrid(args: Result<(nat, nat)>, asWritten: bool, name1: string, name2: string, sigma: real,
                            areaScaleFactor: Value)
      returns (res: Result<GridTracer.GridContour>, ghost t: GridTracer.GridTrace)
      requires Valid() && (args.Ok? ==> args.value.0 >= 1)
      modifies this
      ensures Valid() && SameButCache()
      ensures GridOutcome(args, asWritten, name1, name2, sigma, areaScaleFactor, res, t)
    {
      t := GridTracer.GridTrace(GridTracer.GridSetup(Setup(), (0, 0), [], []), [], [], [], 0.0, 0, 0, 0, 0);
      if args.Err? {
        return Err(args.error), t;
      }
      var id1 := IndexOf(parNames, name1);
      if id1.Err? {
        return Err(id1.error), t;
      }
      var id2 := IndexOf(parNames, name2);
      if id2.Err? {
        return Err(id2.error), t;
      }
      res, t := TraceNamed(args.value, asWritten, name1, name2, sigma, areaScaleFactor);
    }

    /** The grid tracer on two known names, from the current state; the
        function value is read (and so cached) once the area factor has
        proved numeric. */
    method TraceNamed(size: (nat, nat), asWritten: bool, name1: string, name2: string, sigma: real, areaScaleFactor: Value)
      returns (res: Result<GridTracer.GridContour>, ghost t: GridTracer.GridTrace)
      requires Valid() && size.0 >= 1 && name1 in parNames && name2 in parNames
      modifies this
      ensures Valid() && SameButCache()
      ensures fval == if areaScaleFactor.Text? then old(fval) else Some(old(CachedValue()))
      ensures GridTraced(numerics, old(Setup()), old(parNames), old(parVal), old(parErr), old(CachedValue()), size, asWritten,
                         name1, name2, sigma, areaScaleFactor, res, t)
    {
      var fv := CachedValue();
      if !areaScaleFactor.Text? {
        fval := Some(fv);
      }
      assert Valid() && SameButCache() && Setup() == old(Setup());
      res, t := TraceFrom(fv, size, asWritten, name1, name2, sigma, areaScaleFactor);
    }

    /** The grid tracer on two known names, from the current values and
        errors, with the function value `fv`. */
    method TraceFrom(fv: real, size: (nat, nat), asWritten: bool, name1: string, name2: string, sigma: real,
                     areaScaleFactor: Value)
      returns (res: Result<GridTracer.GridContour>, ghost t: GridTracer.GridTrace)
      requires Valid() && size.0 >= 1 && name1 in parNames && name2 in parNames
      ensures GridTraced(numerics, old(Setup()), old(parNames), old(parVal), old(parErr), fv, size, asWritten, name1, name2,
                         sigma, areaScaleFactor, res, t)
    {
      var i, j := IndexOf(parNames, name1).value, IndexOf(parNames, name2).value;
      res, t := GridTracer.HeuristicGrid(numerics, Setup(), (i, j), (parVal[i], parVal[j]), (parErr[i], parErr[j]),
                                         fv, sigma, size.0, size.1, areaScaleFactor, asWritten);
    }

    /** `_contour_heuristic_grid` as evidently intended: out-of-range
        arguments raise the component's exception, and the crop keeps the
        rows and columns at its upper cutoffs. */
    method ContourHeuristicGrid(name1: string, name2: string, sigma: real,
                                initialPoints: Value, iterations: Value, areaScaleFactor: Value)
      returns (res: Result<GridTracer.GridContour>, ghost t: GridTracer.GridTrace)
      requires Valid()
      modifies this
      ensures Valid() && SameButCache()
      ensures GridOutcome(GridTracer.GridArguments(initialPoints, iterations), false, name1, name2, sigma, areaScaleFactor, res, t)
    {
      res, t := RunHeuristicGrid(GridTracer.GridArguments(initialPoints, iterations), false, name1, name2, sigma, areaScaleFactor);
    }

    /** `_contour_heuristic_grid` as written: out-of-range arguments raise a
        TypeError from the misnamed exception (lines 293-296), and the slices
        of lines 415-432 drop the upper cutoffs, so a contour within one row
        of the grid leaves an empty window that numpy refuses at line 420. */
    method ContourHeuristicGridAsWritten(name1: string, name2: string, sigma: real,
                                         initialPoints: Value, iterations: Value, areaScaleFactor: Value)
      returns (res: Result<GridTracer.GridContour>, ghost t: GridTracer.GridTrace)
      requires Valid()
      modifies this
      ensures Valid() && SameButCache()
      ensures GridOutcome(GridTracer.GridArgumentsAsWritten(initialPoints, iterations), true, name1, name2, sigma,
                          areaScaleFactor, res, t)
    {
      res, t := RunHeuristicGrid(GridTracer.GridArgumentsAsWritten(initialPoints, iterations), true, name1, name2, sigma,
                                 areaScaleFactor);
    }

    /** `_contour_beacon` as the object runs it (lines 478-486): the function
        value is read (and so cached) first, then the two names are looked
        up, and the tracer starts from the current values and errors with
        the default beacon size. */
    method ContourBeacon(name1: string, name2: string, sigma: real)
      returns (res: Result<seq<Vec2>>, ghost setup: Beacon.BeaconSetup, ghost contour: seq<Vec2>)
      requires Valid()
      modifies this
      ensures Valid() && SameButCache()
      ensures BeaconOutcome(name1, name2, sigma, res, setup, contour)
    {
      var fv := FunctionValue();
      setup, contour := Beacon.BeaconSetup(numerics, Setup(), (0, 0), (0.0, 0.0), (0.0, 0.0), fv, sigma, Beacon.DefaultBeaconSize), [];
      var id1 := IndexOf(parNames, name1);
      if id1.Err? {
        return Err(id1.error), setup, contour;
      }
      var id2 := IndexOf(parNames, name2);
      if id2.Err? {
        return Err(id2.error), setup, contour;
      }
      var i, j := id1.value, id2.value;
      var b := Beacon.BeaconSetup(numerics, Setup(), (i, j), (parVal[i], parVal[j]), (parErr[i], parErr[j]),
                                  fv, sigma, Beacon.DefaultBeaconSize);
      setup := b;
      ghost var passes, appended, removed;
      res, contour, passes, appended, removed := Beacon.ContourBeacon(b);
    }

    /** What `_contour_beacon` does (lines 478-486): the function value is
        read (and so cached) first; an unknown name raises; for two known
        names the beacon starts from the old values, errors and solver state
        with the default beacon size, fails exactly when brentq finds no
        starting root or the trace ends empty (`[-1]` on an empty list), and
        otherwise returns the traced contour `contour`,
        which starts at that root, mapped back to parameter coordinates. */
    twostate predicate BeaconOutcome(name1: string, name2: string, sigma: real, new res: Result<seq<Vec2>>,
                                     new setup: Beacon.BeaconSetup, new contour: seq<Vec2>)
      reads this
    {
      && fval == Some(old(CachedValue()))
      && (name1 !in old(parNames) ==> res == Err(NotInList(name1)))
      && (name1 in old(parNames) && name2 !in old(parNames) ==> res == Err(NotInList(name2)))
      && (name1 in old(parNames) && name2 in old(parNames) && |old(parVal)| == |old(parErr)| == |old(parNames)| ==>
            var i, j := IndexOf(old(parNames), name1).value, IndexOf(old(parNames), name2).value;
            && setup == Beacon.BeaconSetup(numerics, old(Setup()), (i, j), (old(parVal)[i], old(parVal)[j]),
                                           (old(parErr)[i], old(parErr)[j]), old(CachedValue()), sigma, Beacon.DefaultBeaconSize)
            && (res == Err(RootNotFound) <==> numerics.brentq(Beacon.MetaCost(setup), 0.0, 2.0 * sigma, 1000).None?)
            && (res.Err? ==> res.error == RootNotFound || res.error == EmptyListIndex)
            && (res == Err(EmptyListIndex) ==> contour == [])
            && (res.Ok? ==>
                  && |contour| >= 1
                  && contour[0] == (numerics.brentq(Beacon.MetaCost(setup), 0.0, 2.0 * sigma, 1000).value, 0.0)
                  && res.value == TransformedContour(setup.minimum, contour, setup.err)))
    }

    /** `profile` as written (lines 597-608): the scan points across `bound`
        errors each side, and the pinned minimum at each. With
        `subtract_min` the function value is read (and cached) but the
        curve does not use it. */
    method ProfileAsWritten(name: string, bins: int, bound: real, subtractMin: bool)
      returns (res: Result<(seq<real>, seq<real>)>)
      requires Valid()
      modifies this
      ensures Valid() && SameButCache()
      ensures name !in parNames ==> res == Err(NotInList(name))
      ensures name in parNames && bins < 0 ==> res == Err(NegativeSampleCount(bins))
      ensures res.Ok? <==> name in parNames && bins >= 0
      ensures fval == if res.Ok? && subtractMin then Some(old(CachedValue())) else old(fval)
      ensures res.Ok? ==>
        var id := IndexOf(parNames, name).value;
        var par := ScanPoints(parVal[id], parErr[id], bound, bins);
        res.value == (par, ProfileCurveAsWritten(Setup(), id, par, if subtractMin then old(CachedValue()) else 0.0))
    {
      var id := IndexOf(parNames, name);
      if id.Err? {
        return Err(id.error);
      }
      if bins < 0 {
        return Err(NegativeSampleCount(bins));
      }
      var par := ScanPoints(parVal[id.value], parErr[id.value], bound, bins);
      var offset := 0.0;
      if subtractMin {
        offset := FunctionValue();
      }
      var y := ScanCosts(Setup(), id.value, par, 0.0);
      ProfileCurveShift(Setup(), id.value, par, 0.0);
      res := Ok((par, y));
    }

    /** `profile` with the offset applied: the same scan, each value less the
        function value when `subtract_min` is set. */
    method Profile(name: string, bins: int, bound: real, subtractMin: bool)
      returns (res: Result<(seq<real>, seq<real>)>)
      requires Valid()
      modifies this
      ensures Valid() && SameButCache()
      ensures name !in parNames ==> res == Err(NotInList(name))
      ensures name in parNames && bins < 0 ==> res == Err(NegativeSampleCount(bins))
      ensures res.Ok? <==> name in parNames && bins >= 0
      ensures fval == if res.Ok? && subtractMin then Some(old(CachedValue())) else old(fval)
      ensures res.Ok? ==>
        var id := IndexOf(parNames, name).value;
        var par := ScanPoints(parVal[id], parErr[id], bound, bins);
        res.value == (par, ProfileCurve(Setup(), id, par, if subtractMin then old(CachedValue()) else 0.0))
    {
      var id := IndexOf(parNames, name);
      if id.Err? {
        return Err(id.error);
      }
      if bins < 0 {
        return Err(NegativeSampleCount(bins));
      }
      var par := ScanPoints(parVal[id.value], parErr[id.value], bound, bins);
      var offset := 0.0;
      if subtractMin {
        offset := FunctionValue();
      }
      var y := ScanCosts(Setup(), id.value, par, offset);
      res := Ok((par, y));
    }
  }
}
