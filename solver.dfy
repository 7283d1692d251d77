/**
 * The foreign numerics the minimizer calls, as oracles: `scipy.optimize.minimize`,
 * the `numdifftools` Hessian (inverted) and gradient, `scipy.optimize.brentq`,
 * and numpy's square root and trigonometric functions. Nothing about them is
 * assumed beyond the shapes of what they return.
 */
module Solver {
  import opened PyBase

  /** An equality constraint `x[index] - value == 0`: it pins one parameter.
      The source builds these as closures; here they are values. */
  datatype Constraint = Pin(index: nat, value: real)

  /** One parameter's `(lower, upper)` bounds; `None` is an open side. */
  datatype Bound = Bound(lower: Option<real>, upper: Option<real>)

  const Unbounded := Bound(None, None)

  type Matrix = seq<seq<real>>

  predicate IsSquare(m: Matrix, n: nat) {
    |m| == n && forall i :: 0 <= i < n ==> |m[i]| == n
  }

  /** The arguments of one `scipy.optimize.minimize` call. */
  datatype Problem = Problem(
    cost: seq<real> -> real,
    start: seq<real>,
    bounds: Option<seq<Bound>>,
    constraints: seq<Constraint>,
    algorithm: string,
    tol: real,
    maxIter: int)

  /** The two fields of scipy's `OptimizeResult` that are used: `x` and `fun`. */
  datatype OptResult = OptResult(x: seq<real>, fun: real)

  datatype Numerics = Numerics(
    /** `scipy.optimize.minimize` */
    minimize: Problem -> OptResult,
    /** `np.asmatrix(nd.Hessian(cost)(x)).I`; `None` when numpy cannot invert */
    hessianInverse: (seq<real> -> real, seq<real>) -> Option<Matrix>,
    /** `np.sqrt` */
    sqrt: real -> real,
    /** `scipy.optimize.brentq(f, a, b, maxiter)`; `None` when it raises */
    brentq: (real -> real, real, real, int) -> Option<real>,
    /** `nd.Gradient(f)(x)` for a function of two coordinates */
    gradient: (Vec2 -> real, Vec2) -> Vec2,
    sin: real -> real,
    cos: real -> real,
    tan: real -> real,
    arctan: real -> real,
    arctan2: (real, real) -> real)

  /** The shapes the source relies on: the optimum has as many coordinates as
      the start point, and an inverted Hessian is square of that size. */
  ghost predicate WellShaped(nm: Numerics) {
    (forall p: Problem :: |nm.minimize(p).x| == |p.start|)
    && (forall f: seq<real> -> real, x: seq<real> ::
          nm.hessianInverse(f, x).Some? ==> IsSquare(nm.hessianInverse(f, x).value, |x|))
  }

  /** What `_calc_fun_with_constraints` reads of the minimizer: the cost, the
      start point, the bounds, the standing constraints and the tolerance. */
  datatype SolverSetup = SolverSetup(
    numerics: Numerics,
    cost: seq<real> -> real,
    parVal: seq<real>,
    bounds: Option<seq<Bound>>,
    constraints: seq<Constraint>,
    tol: real)

  /** `_calc_fun_with_constraints`: the minimum found by SLSQP (at most 6000
      iterations) from the current values, under the standing constraints
      followed by the extra ones. */
  function ConstrainedCost(s: SolverSetup, extra: seq<Constraint>): real {
    s.numerics.minimize(Problem(s.cost, s.parVal, s.bounds, s.constraints + extra, "slsqp", s.tol, 6000)).fun
  }

  /** Two constraints that pin parameters `ids.0` and `ids.1` to the coordinates of `p`. */
  function PinBoth(ids: (nat, nat), p: Vec2): seq<Constraint> {
    [Pin(ids.0, p.0), Pin(ids.1, p.1)]
  }
}
