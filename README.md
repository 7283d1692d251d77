# kafe minimizer and fit-ensemble core, modelled in Dafny

This project models two parts of kafe, a Python 2 fitting toolkit:

* `MinimizerScipyOptimize`. This adapter drives a constrained numerical optimizer.
  * It keeps the parameter values, errors and bounds, and the cached function value, covariance and optimizer result.
  * Its contour tracers work in the two-parameter subspace:
    * the heuristic grid refines a doubling lattice, then crops it;
    * the beacon walks along the iso-cost line with a stretched search ellipse.
  * It also produces the profile scan of a single parameter.
* `XYFitEnsemble`. This is the bookkeeping around an ensemble of toy fits:
  * the search for the subplot grid;
  * the validation of the requested result variables;
  * the run loop, which fills one row per pseudo-experiment;
  * the lookups `get_results` and `get_results_statistics`.

Everything numeric that the code takes from libraries is an oracle: a field of the `Numerics` datatype in `solver.dfy`. This covers:

* `scipy.optimize.minimize` and the constrained re-minimisation `_calc_fun_with_constraints`;
* `numdifftools`' Hessian and gradient;
* `brentq`, `sqrt`, `sin`, `cos`, `tan`, `arctan` and `arctan2`.

Except where "## Left out" says otherwise, the model states exactly what the code does with the oracle's answers: which cells are evaluated, which branches are taken, what is kept, and what is raised. That covers the four cutoffs of the grid crop, which the model gives as functions of the grid.

## Files

* `py_base.dfy`: the Python semantics the code relies on:
  * `list.index`, `int()` on floats and strings, and floor division;
  * `np.linspace` and slices with negative or out-of-range bounds;
  * the exceptions, as a `Result`.
* `solver.dfy`: the oracle interface (`Numerics`) and the pinned-parameter cost `ConstrainedCost`.
* `contour_points.dfy`: `_get_adjacent_coords`, `_transform_coordinates` and `_transform_contour`.
* `grid_heuristics.dfy`: the grid sizes, `_get_adjacent_grid_points`, `_heuristic_point_evaluation` and the lattice of each refinement pass.
* `grid_tracer.dfy`: `_contour_heuristic_grid`. It covers:
  * the argument checks and the coarse pass;
  * the refinement passes over an `array2` grid;
  * the unsure work list;
  * the schedule of halving steps;
  * the four-sided crop.
* `beacon.dfy`: `_contour_beacon`. It covers the tables of the search ellipse, one pass of the walk, and the loop with its stop tests.
* `minimizer.dfy`: the class `MinimizerScipyOptimize`. It covers:
  * the fields the source mutates;
  * `limit`/`unlimit`, the setters, `fix`/`release` and `minimize`;
  * `contour` and its dispatch;
  * `profile`.
* `ensemble.dfy`: `_heuristic_optimal_subplot_grid_size` and the class `XYFitEnsemble`.

Where the documented behaviour and the code differ, the model follows the code:

* `limit` does not check that the lower bound lies below the upper one.
* An unknown parameter name raises the `ValueError` of `list.index`.
* `fix` and `release` raise `NotImplementedError` before touching any state, so nothing is ever fixed.
* The beacon backtracks above 0.349111 rad, about 20 degrees. Its ellipse shrinks for picks beyond 10 degrees and widens below that, with the factor floored at 0.25.
* `get_results` validates the wrong list (Findings).

For each source bug under Findings the model has the code as written and as evidently intended. The object's `contour` runs the intended versions; `ContourHeuristicGridAsWritten` runs the grid tracer as written.

Source paths below are relative to the repository root:

* `M` is `kafe/core/minimizers/scipy_optimize_minimizer.py`;
* `E` is `kafe/fit/xy/ensemble.py`.

The table spells both paths out.

## Model

| member | source | states |
|---|---|---|
| PyBase.IndexOf | kafe/core/minimizers/scipy_optimize_minimizer.py:141 | `list.index`: succeeds exactly when the name is listed, and then returns the first position holding it; otherwise it raises `ValueError` (`NotInList`) |
| PyBase.Trunc | kafe/core/minimizers/scipy_optimize_minimizer.py:290-291 | `int()` of a float truncates toward zero: the result is within one of the value, on the side of zero |
| PyBase.ParseInt | kafe/core/minimizers/scipy_optimize_minimizer.py:290-291 | `int()` of a string: accepted exactly when, without the white space around it, it is an optional sign, then optional white space, then at least one decimal digit; the value is the digits' number, negated after a minus; otherwise `ValueError` |
| PyBase.ParseSpacedSign | kafe/core/minimizers/scipy_optimize_minimizer.py:290-291 | white space between the sign and the digits changes nothing: `int(sign + w + d) == int(sign + d)` |
| PyBase.ParseMinusSpaceThree | kafe/core/minimizers/scipy_optimize_minimizer.py:290-291 | `int("- 3")` is -3 |
| PyBase.StripLeftShape | kafe/core/minimizers/scipy_optimize_minimizer.py:290-291 | the white space `int()` skips at the front is the longest all-space prefix; what remains starts with a non-space |
| PyBase.StripRightShape | kafe/core/minimizers/scipy_optimize_minimizer.py:290-291 | the white space `int()` skips at the end is the longest all-space suffix; what remains ends with a non-space |
| PyBase.ParseDecimal | kafe/core/minimizers/scipy_optimize_minimizer.py:290-291 | `int()` undoes `str()` on every integer, with any white space on either side |
| PyBase.FloorDiv | kafe/core/minimizers/scipy_optimize_minimizer.py:403 | Python 2 `/` on ints floors for either sign of the divisor |
| PyBase.Linspace | kafe/core/minimizers/scipy_optimize_minimizer.py:304-307 | `np.linspace` with the endpoint: `num` points, the first is `start`, the last is `stop`, all steps are equal |
| PyBase.LinspaceMidpoint | kafe/core/minimizers/scipy_optimize_minimizer.py:304-307 | with an odd count, the middle point of a symmetric linspace is its centre |
| PyBase.PySlice | kafe/core/minimizers/scipy_optimize_minimizer.py:415 | Python slicing with clamped or negative bounds: it equals `s[a..b]` for in-range bounds, is empty when the clamped bounds cross, and otherwise holds the elements from the clamped start on |
| GridHeuristics.CoarseStride | kafe/core/minimizers/scipy_optimize_minimizer.py:298-311 | the target side `1 + ip * 2^(it+1)` is odd and at least 3, and the coarse step `(target - 1) / (initial - 1)` is exactly `2^it` |
| GridHeuristics.CentreOnCoarseGrid | kafe/core/minimizers/scipy_optimize_minimizer.py:313 | the minimum's cell `(target - 1) / 2` lies in the grid and on the coarse lattice, so the coarse pass evaluates it |
| GridHeuristics.AdjacentGridPoints | kafe/core/minimizers/scipy_optimize_minimizer.py:449-470 | at most four values; every value is the cell of an in-grid candidate; some in-grid candidate gives a non-empty result; all four candidates in the grid give their cells in the order -v1, -v2, +v1, +v2 |
| GridHeuristics.GetAdjacentGridPoints | kafe/core/minimizers/scipy_optimize_minimizer.py:449-470 | the loop over the four offsets on the array returns the values of `AdjacentGridPoints` for the array's contents |
| GridHeuristics.HeuristicPointEvaluation | kafe/core/minimizers/scipy_optimize_minimizer.py:439-445 | the neighbours' mean when all lie strictly below or all strictly above the level, else -1; that mean lies on the same side of the level |
| GridHeuristics.MeanSameSide | kafe/core/minimizers/scipy_optimize_minimizer.py:441-444 | the mean of values all below (above) a bound is below (above) it |
| GridHeuristics.HeuristicValue | kafe/core/minimizers/scipy_optimize_minimizer.py:439-445 | the method on the array returns `HeuristicPointEvaluation` of the array's contents |
| GridHeuristics.CandidatesOffLattice | kafe/core/minimizers/scipy_optimize_minimizer.py:330-345 | the shortcut's neighbours of a cell visited in a pass are never visited in that same pass; they were settled in earlier passes |
| GridHeuristics.PassPointHasNeighbour | kafe/core/minimizers/scipy_optimize_minimizer.py:330-345 | every cell a pass visits has a neighbour inside the grid, so the shortcut never takes the mean of nothing |
| GridTracer.IntArg | kafe/core/minimizers/scipy_optimize_minimizer.py:290-291 | `int(v)`: an int stays, a float is truncated toward zero, and a string is accepted exactly when it is a decimal literal, with `int(str(i))` equal to `i`; any other string raises `ValueError` |
| GridTracer.IntArgOfDecimal | kafe/core/minimizers/scipy_optimize_minimizer.py:290-291 | a keyword given as the decimal string of an integer converts to that integer |
| GridTracer.GridArgumentsAsWritten | kafe/core/minimizers/scipy_optimize_minimizer.py:290-296 | the checks as written: non-numbers raise; `initial_points < 1` or `iterations < 0` raise `TypeError`, from calling the class with one argument; otherwise the two ints |
| GridTracer.GridArguments | kafe/core/minimizers/scipy_optimize_minimizer.py:290-296 | the checks as intended: each failing bound raises its own message, `initial_points` first |
| GridTracer.GridArgumentsDiffer | kafe/core/minimizers/scipy_optimize_minimizer.py:293-296 | the two versions agree on accepted arguments, and every intended message is a `TypeError` as written |
| GridTracer.AxisValues | kafe/core/minimizers/scipy_optimize_minimizer.py:304-307 | `n` axis values from `centre - half` to `centre + half`, with the centre at the middle index |
| GridTracer.Padding | kafe/core/minimizers/scipy_optimize_minimizer.py:403 | `int(3 / area_scale_factor * max(1, 2^(it-4)))`: a string raises, zero divides by zero; an int factor gives its floor quotient `3 // a` times the scale, a float factor the truncation of `3.0 / f` times the scale; a positive factor gives a padding of at least 0; a negative int factor gives a negative one, a negative float factor one of at most 0 |
| GridTracer.PaddingOfHundred | kafe/core/minimizers/scipy_optimize_minimizer.py:403 | `area_scale_factor=100` (int or float) with 5 iterations gives a padding of 0 |
| GridTracer.DefaultPadding | kafe/core/minimizers/scipy_optimize_minimizer.py:403 | with the defaults 1.5 and 5 iterations the padding is 4 |
| GridTracer.CoarsePass | kafe/core/minimizers/scipy_optimize_minimizer.py:317-321 | exactly the cells on the coarse lattice get the constrained cost; all others keep their value |
| GridTracer.StartGrid | kafe/core/minimizers/scipy_optimize_minimizer.py:309-321 | a fresh square grid with the cost on the coarse lattice and -1 everywhere else |
| GridTracer.Visit | kafe/core/minimizers/scipy_optimize_minimizer.py:346-363 | a visited cell takes the shortcut's value, or is evaluated, confirmed, and puts its four pass neighbours on the unsure list |
| GridTracer.RefinementPass | kafe/core/minimizers/scipy_optimize_minimizer.py:329-363 | after the pass, the confirmed cells are those the shortcut could not settle, the unsure cells are their neighbours, and every visited cell holds its pass value |
| GridTracer.Reevaluate | kafe/core/minimizers/scipy_optimize_minimizer.py:376-390 | the cell gets its constrained cost, nothing else changes, and it reports whether the old and new values lie on opposite sides of the level |
| GridTracer.Drain | kafe/core/minimizers/scipy_optimize_minimizer.py:365-391 | the work list ends with every unsure in-grid cell confirmed; every evaluation is of a new cell, once each; the neighbours of every flipping cell are confirmed; nothing outside the grid is touched |
| GridTracer.ScheduleSteps | kafe/core/minimizers/scipy_optimize_minimizer.py:327-397 | the steps alternate between even and odd passes and halve in turn; the loop runs exactly `2 * iterations` passes |
| GridTracer.Refine | kafe/core/minimizers/scipy_optimize_minimizer.py:324-397 | the rounds run from the grid given, through the grids recorded, to the final grid; in each, the cells off the pass keep their values, a confirmed or coarse cell holds its cost, and any other cell of the pass its pass value from the grid the round found; every cell ends filled in |
| GridTracer.ScanDown | kafe/core/minimizers/scipy_optimize_minimizer.py:405-406 | the right cutoff before padding: the last row reaching the level, or 0 (`LastReaching` of the rows' flags); the `np.min` of an empty row raises |
| GridTracer.ReachesMin | kafe/core/minimizers/scipy_optimize_minimizer.py:405 | a row reaches the level exactly when its `np.min` is at or below it |
| GridTracer.LastReachingMeaning | kafe/core/minimizers/scipy_optimize_minimizer.py:405-406 | `LastReaching` is the last reaching index at or below the start, or 0 when none reaches |
| GridTracer.ScanUp | kafe/core/minimizers/scipy_optimize_minimizer.py:410-411 | the left cutoff before padding: the first row reaching the level, or the right cutoff (`FirstReaching` of the rows' flags) |
| GridTracer.FirstReachingMeaning | kafe/core/minimizers/scipy_optimize_minimizer.py:410-411 | `FirstReaching` is the first reaching index from the start on, stopping at the upper bound |
| GridTracer.AxisCutoffs | kafe/core/minimizers/scipy_optimize_minimizer.py:405-413 | the cutoffs are exactly `LowerCutoff` and `UpperCutoff` of the rows' flags: the last reaching row plus the padding, clamped to the last index, and the first reaching row below that, less the padding, clamped at 0; every row reaching the level lies between them, and the rows beyond them (less the padding) do not reach it |
| GridTracer.OneRowCutoffs | kafe/core/minimizers/scipy_optimize_minimizer.py:405-413 | with no padding and a single reaching row, both cutoffs are that row |
| GridTracer.CropAxis | kafe/core/minimizers/scipy_optimize_minimizer.py:405-415 | one axis of the crop: the rows and axis values between the cutoffs, which are `LowerCutoff` and `UpperCutoff` of the rows' flags |
| GridTracer.ColumnsReachingTransposed | kafe/core/minimizers/scipy_optimize_minimizer.py:416-418 | a row of the transposed kept rows reaches the level exactly when its column does within the kept rows |
| GridTracer.ColumnReachesSome | kafe/core/minimizers/scipy_optimize_minimizer.py:418 | a column of the kept rows reaches the level exactly when one of its cells in those rows is at or below it |
| GridTracer.CropKeptRows | kafe/core/minimizers/scipy_optimize_minimizer.py:416-432 | the y cutoffs are `LowerCutoff` and `UpperCutoff` of the flags of the columns within the kept rows; the window keeps the rows' axis values, the sliced y values and every level cell of those rows; an empty set of kept rows raises on a grid of more than one column |
| GridTracer.CropWindow | kafe/core/minimizers/scipy_optimize_minimizer.py:399-432 | both axes: the x cutoffs from the rows of the whole grid, the y cutoffs from the columns of the kept rows (`CutoffsAre`); raises exactly when the kept rows are empty on a grid of more than one cell a side |
| GridTracer.Crop | kafe/core/minimizers/scipy_optimize_minimizer.py:399-432 | the corrected crop: the cutoffs are those `CutoffsAre` gives; with a padding of at least 0 it succeeds, with a window from each lower cutoff up to and including the upper one; the axis values match, and every cell at or below the level is kept |
| GridTracer.CropAsWritten | kafe/core/minimizers/scipy_optimize_minimizer.py:399-432 | the crop as written: the cutoffs are those `CutoffsAre` gives; never the last row or column; with a padding of at least 0 it raises exactly when the x cutoffs meet, and otherwise keeps each window up to but not including its upper cutoff, with every cell at or below the level that is on neither upper cutoff |
| GridTracer.CropBy | kafe/core/minimizers/scipy_optimize_minimizer.py:399-432 | the crop as written or as intended: for every padding, negative ones included, the cutoffs `CutoffsAre` gives and a raise exactly when the x slice is empty on a grid of more than one column (`CropEnds`); for a padding of at least 0 it ends as `CropOutcome` states |
| GridTracer.OneRowCrop | kafe/core/minimizers/scipy_optimize_minimizer.py:405-432 | with no padding, more than one row and a single row reaching the level, both x cutoffs are that row; as written the crop raises `EmptyArrayMinimum`, as intended it keeps just that row |
| GridTracer.MinFun | kafe/core/minimizers/scipy_optimize_minimizer.py:324 | the smaller of the function value and the centre cell |
| GridTracer.Deficits | kafe/core/minimizers/scipy_optimize_minimizer.py:434 | the square root of each cell less the minimum, cell by cell |
| GridTracer.FillGrid | kafe/core/minimizers/scipy_optimize_minimizer.py:298-397 | a square odd-sided grid; the rounds start from the coarse costs and -1 markers, and each has the effect `Refine` states; the level comes from `MinFun`; coarse cells hold their cost and every cell is filled in |
| GridTracer.WideNegativePaddingRaises | kafe/core/minimizers/scipy_optimize_minimizer.py:409-415 | a padding of at most minus the grid side puts the lower x cutoff past the last row, so the crop raises on the empty slice, as written and as intended |
| GridTracer.HeuristicGrid | kafe/core/minimizers/scipy_optimize_minimizer.py:288-436 | a string area factor raises, and so does a zero one; otherwise the axes, the minimum and every round follow `Traced`, from the coarse start grid to the final grid; the result is the square root of a window of that grid less the minimum; for every factor that is not text and not zero, negative ones included, the crop's four cutoffs are computed from the final grid and the padding and it raises exactly when the x slice is empty (`CropEnds`); when the padding is at least 0 (a positive factor, or a float factor below `-3·scale`) the crop ends as `CropOutcome` states, as written or as intended |
| GridTracer.CropContour | kafe/core/minimizers/scipy_optimize_minimizer.py:399-436 | the crop, as written or as intended, and the square-root transform build the returned contour from the filled grid; for every padding the cutoffs are those `CutoffsAre` gives and the crop raises exactly when the x slice is empty (`CropEnds`); with a padding of at least 0 the crop ends as `CropOutcome` states |
| ContourPoints.AdjacentAreTouching | kafe/core/minimizers/scipy_optimize_minimizer.py:472-476 | the four coordinates are exactly the lattice points at distance one, each listed once |
| ContourPoints.AdjacentReversal | kafe/core/minimizers/scipy_optimize_minimizer.py:472-476 | direction `(i + 2) % 4` of the neighbour in direction `i` leads back |
| ContourPoints.AdjacentClockwise | kafe/core/minimizers/scipy_optimize_minimizer.py:472-476 | north, east, south, west: each offset is the previous one turned clockwise |
| ContourPoints.TransformRoundTrip | kafe/core/minimizers/scipy_optimize_minimizer.py:559-561 | with non-zero errors, `minimum + s * errors` and its inverse undo each other on both sides |
| ContourPoints.TransformOrigin | kafe/core/minimizers/scipy_optimize_minimizer.py:559-561 | the sigma origin maps to the minimum |
| ContourPoints.InjectiveIff | kafe/core/minimizers/scipy_optimize_minimizer.py:559-561 | the transform is injective exactly when neither error is zero |
| ContourPoints.TransformContour | kafe/core/minimizers/scipy_optimize_minimizer.py:563-568 | the append loop returns every point transformed, in order |
| ContourPoints.TransformedPointwise | kafe/core/minimizers/scipy_optimize_minimizer.py:563-568 | the same length, and point `i` transformed at position `i` |
| ContourPoints.TransformedEdits | kafe/core/minimizers/scipy_optimize_minimizer.py:540-542 | the transform commutes with appending a point and with dropping the last one |
| ContourPoints.TransformedContourInverse | kafe/core/minimizers/scipy_optimize_minimizer.py:563-568 | with non-zero errors, the sigma contour is recovered from the result |
| Beacon.MetaCostAlongAxis | kafe/core/minimizers/scipy_optimize_minimizer.py:501-502 | the root finder's function is the level minus the cost on the first axis, so its roots are the axis points on the contour |
| Beacon.FactorsFloored | kafe/core/minimizers/scipy_optimize_minimizer.py:496-497 | every curvature factor is at least 0.25, and it equals the raw factor wherever that is at least 0.25 |
| Beacon.WidensIff | kafe/core/minimizers/scipy_optimize_minimizer.py:496-497 | a factor exceeds 1 exactly for stretched angles below 10 degrees |
| Beacon.BacktrackNarrows | kafe/core/minimizers/scipy_optimize_minimizer.py:496-538 | a pick beyond the backtrack angle always shrinks the ellipse |
| Beacon.EllipseCosts | kafe/core/minimizers/scipy_optimize_minimizer.py:523-529 | the array of the constrained costs at the 21 candidates |
| Beacon.ClosestIndex | kafe/core/minimizers/scipy_optimize_minimizer.py:530 | `argmin` of the distance to the level: a closest candidate, and the first one among ties |
| Beacon.CurvatureStaysInRange | kafe/core/minimizers/scipy_optimize_minimizer.py:533-535 | the capped adjustment stays in (0, 1]; a factor of at most 1 is applied uncapped |
| Beacon.DropLast | kafe/core/minimizers/scipy_optimize_minimizer.py:540 | `[0:-1]` drops the last point, and leaves an empty list empty |
| Beacon.BeaconPass | kafe/core/minimizers/scipy_optimize_minimizer.py:519-547 | one pass: the pick is the closest candidate; the adjustment is updated and capped; a backtrack drops a point and shrinks the ellipse, anything else appends the pick; the first point is kept |
| Beacon.TraceFrom | kafe/core/minimizers/scipy_optimize_minimizer.py:507-555 | the loop: at least 12 and at most 201 passes on a contour that survives; it starts at the start point and holds at most 202 points; an early stop is within the termination distance of the start; the length is one plus appends less removals |
| Beacon.ContourBeacon | kafe/core/minimizers/scipy_optimize_minimizer.py:478-557 | the tracer: no root raises; a contour emptied by backtracking raises `IndexError`; otherwise the traced sigma contour is transformed to parameter space |
| Minimizer.UpdatedBounds | kafe/core/minimizers/scipy_optimize_minimizer.py:142-144 | the named index gets the new bound; the others keep theirs, or become `(None, None)` when there was no list |
| Minimizer.LimitThenUnlimit | kafe/core/minimizers/scipy_optimize_minimizer.py:139-148 | `unlimit` after `limit` leaves that parameter unbounded, and restores the list when it was unbounded before |
| Minimizer.LimitsCommute | kafe/core/minimizers/scipy_optimize_minimizer.py:139-144 | limits on different parameters commute; a second limit on the same one overrides the first |
| Minimizer.MinimizerScipyOptimize.SetFixed | kafe/core/minimizers/scipy_optimize_minimizer.py:119-133 | `fix` and `release` always raise `NotImplementedError`, and change no field, so no parameter is ever fixed |
| Minimizer.MinimizerScipyOptimize.SetFixedSeveral | kafe/core/minimizers/scipy_optimize_minimizer.py:126-137 | `fix_several` and `release_several` succeed exactly on an empty list, and otherwise raise `NotImplementedError` |
| Minimizer.ErrorsFromHessian | kafe/core/minimizers/scipy_optimize_minimizer.py:179-180 | the covariance `H^-1 * 2 * errordef` is square, and each error is the square root of its diagonal entry |
| Minimizer.ParseContourKwargs | kafe/core/minimizers/scipy_optimize_minimizer.py:186-198 | an unknown algorithm raises; beacon or grid is chosen by the popped name; the grid keywords come with their defaults |
| Minimizer.ContourKwargsAccepted | kafe/core/minimizers/scipy_optimize_minimizer.py:186-198 | for each algorithm, accepted exactly when no leftover keyword remains; otherwise the error names the leftovers |
| Minimizer.ContourDefaults | kafe/core/minimizers/scipy_optimize_minimizer.py:186-193 | no keywords means the heuristic grid with 1 initial point, 5 iterations and area factor 1.5 |
| Minimizer.ProfileOffsetIgnored | kafe/core/minimizers/scipy_optimize_minimizer.py:602-606 | as written, the curve does not depend on `_y_offset`; with a non-zero function value it differs from the intended curve at every point |
| Minimizer.ProfileCurveShift | kafe/core/minimizers/scipy_optimize_minimizer.py:602-606 | the intended curve is each pinned minimum less the offset, and with offset 0 it is the raw curve |
| Minimizer.ScanCosts | kafe/core/minimizers/scipy_optimize_minimizer.py:604-606 | the loop fills each bin with its pinned minimum less the offset |
| Minimizer.ScanPoints | kafe/core/minimizers/scipy_optimize_minimizer.py:601 | `bins` points from `value - bound * err` to `value + bound * err` |
| Minimizer.MinimizerScipyOptimize.constructor | kafe/core/minimizers/scipy_optimize_minimizer.py:15-45 | the initial state: no bounds, nothing fixed, no constraints, errordef 1, tolerance 1e-6, empty caches |
| Minimizer.MinimizerScipyOptimize.GetOptResult | kafe/core/minimizers/scipy_optimize_minimizer.py:49-52 | raises exactly before any fit, else it is the stored result |
| Minimizer.MinimizerScipyOptimize.FunctionValue | kafe/core/minimizers/scipy_optimize_minimizer.py:96-100 | the cached value, or the cost at the current values, which is then cached; nothing else changes |
| Minimizer.MinimizerScipyOptimize.SetErrorDef | kafe/core/minimizers/scipy_optimize_minimizer.py:60-63 | accepted exactly for positive values, which are stored; a failed assertion changes nothing |
| Minimizer.MinimizerScipyOptimize.SetTolerance | kafe/core/minimizers/scipy_optimize_minimizer.py:70-73 | accepted exactly for positive values, which are stored; a failed assertion changes nothing |
| Minimizer.MinimizerScipyOptimize.Limit | kafe/core/minimizers/scipy_optimize_minimizer.py:139-144 | a non-pair fails the assertion first, then an unknown name raises; on success only that bound changes, and a first call fills the list |
| Minimizer.MinimizerScipyOptimize.Unlimit | kafe/core/minimizers/scipy_optimize_minimizer.py:146-148 | an unknown name raises; with no list yet it raises `TypeError`; otherwise only that bound becomes `(None, None)` |
| Minimizer.MinimizerScipyOptimize.AdoptHessian | kafe/core/minimizers/scipy_optimize_minimizer.py:176-182 | the state after a successful inversion holds the inverse Hessian, the covariance, the errors from its diagonal and the optimizer's function value |
| Minimizer.MinimizerScipyOptimize.Minimize | kafe/core/minimizers/scipy_optimize_minimizer.py:153-182 | the constraints are rebuilt empty; the optimizer starts from the old values with the bounds; its result is stored; a singular Hessian raises after that, leaving the caches; otherwise they are adopted |
| Minimizer.MinimizerScipyOptimize.Contour | kafe/core/minimizers/scipy_optimize_minimizer.py:185-205 | keyword errors raise and change nothing; otherwise the picked tracer runs as `GridOutcome` (checks and crop as intended) or `BeaconOutcome` states, and its result or exception is passed on |
| Minimizer.MinimizerScipyOptimize.ContourHeuristicGrid | kafe/core/minimizers/scipy_optimize_minimizer.py:288-436 | as intended: argument errors, then unknown names, raise with nothing changed; the tracer runs from the current state as `HeuristicGrid` states, caching the function value; for every non-zero numeric area factor the four cutoffs are computed from the final grid and the crop raises exactly when the x slice is empty; a padding of at least 0 succeeds and keeps every cell at or below the level |
| Minimizer.MinimizerScipyOptimize.RunHeuristicGrid | kafe/core/minimizers/scipy_optimize_minimizer.py:288-436 | the body both versions share, for checked arguments: `GridOutcome`, that is the errors, the cache, the rounds and the crop with its cutoffs computed from the final grid and its raise condition, for every non-zero numeric area factor |
| Minimizer.MinimizerScipyOptimize.ContourHeuristicGridAsWritten | kafe/core/minimizers/scipy_optimize_minimizer.py:288-436 | as written: out-of-range arguments raise `TypeError`; for every non-zero numeric area factor the four cutoffs are computed from the final grid and it raises exactly when the x slice is empty; with a padding of at least 0 it raises exactly when the x cutoffs meet, and drops the rows and columns on the upper cutoffs |
| Minimizer.MinimizerScipyOptimize.ContourBeacon | kafe/core/minimizers/scipy_optimize_minimizer.py:478-557 | the function value is cached first; unknown names raise; the setup passed to the tracer is built from the named parameters; it raises only when no root is found or the contour ends empty, and otherwise returns the traced contour, from the root, transformed back |
| Minimizer.MinimizerScipyOptimize.ProfileAsWritten | kafe/core/minimizers/scipy_optimize_minimizer.py:597-608 | as written: an unknown name or negative bins raise; the scan points are returned with the uncorrected curve; the function value is cached when `subtract_min` is set |
| Minimizer.MinimizerScipyOptimize.Profile | kafe/core/minimizers/scipy_optimize_minimizer.py:597-608 | as intended: the same, with the offset subtracted from every bin |
| Ensemble.FirstMinimumUnique | kafe/fit/xy/ensemble.py:26-33 | the first minimum of the scan is unique |
| Ensemble.ConsiderLayout | kafe/fit/xy/ensemble.py:29-33 | the inner step keeps the best layout so far: it is replaced only by a strictly cheaper one |
| Ensemble.SubplotGridSize | kafe/fit/xy/ensemble.py:19-36 | with n below 2 the result is `(n, n)`; otherwise `(s, s + k)` for the first strict minimum of the scan in loop order; never more rows than columns |
| Ensemble.ValidateRequested | kafe/fit/xy/ensemble.py:111-119 | no list means the defaults; a list is accepted exactly when every name is available, and the error lists the unavailable ones |
| Ensemble.CollectedMeaning | kafe/fit/xy/ensemble.py:346-352 | succeeds exactly when every name has a variable, returning those variables; otherwise it names the first name without one |
| Ensemble.StatsRowMeaning | kafe/fit/xy/ensemble.py:383-389 | succeeds exactly when every statistic is known, with one entry per statistic; otherwise it names the first unknown one |
| Ensemble.StatsTableOk | kafe/fit/xy/ensemble.py:372-391 | succeeds exactly when every result has a variable and every statistic is known (or there are no results); one row per result |
| Ensemble.StatsTableErr | kafe/fit/xy/ensemble.py:372-391 | which error is raised: the first result decides between a missing variable and an unknown statistic; with known statistics it is the first result without a variable |
| Ensemble.ResultNamesAsWritten | kafe/fit/xy/ensemble.py:337-344 | the check as written: with no names, the requested ones; given names are accepted exactly when the requested ones are all available, whatever the given names are, and the error lists the unavailable requested ones |
| Ensemble.ResultNames | kafe/fit/xy/ensemble.py:337-344 | the check as intended: the given names are accepted exactly when all are available, and the error lists those that are not |
| Ensemble.UnknownResultNotRejected | kafe/fit/xy/ensemble.py:337-352 | with a validly built ensemble, an unavailable name passes the check as written and fails later as "not collected"; the intended check rejects it |
| Ensemble.GatherRow | kafe/fit/xy/ensemble.py:166-168 | row `i` of every requested variable gets its value; every other row and every other variable is unchanged |
| Ensemble.Collect | kafe/fit/xy/ensemble.py:346-352 | the loop of `get_results` computes `Collected` |
| Ensemble.StatsFor | kafe/fit/xy/ensemble.py:383-389 | the inner loop of `get_results_statistics` computes `StatsRow` |
| Ensemble.Tabulate | kafe/fit/xy/ensemble.py:372-391 | the outer loop of `get_results_statistics` computes `StatsTable` |
| Ensemble.Create | kafe/fit/xy/ensemble.py:111-121 | unavailable requested names raise; a negative experiment count with any variable raises; otherwise (valid names, and no variable or `n_exp >= 0`) it succeeds with a valid fresh ensemble holding the checked names and a zero row per experiment in every variable |
| Ensemble.XYFitEnsemble.constructor | kafe/fit/xy/ensemble.py:111-121 | the counts and names are stored, and every variable starts as zero rows |
| Ensemble.XYFitEnsemble.InitializeVariables | kafe/fit/xy/ensemble.py:188-241 | one variable per requested name, each with one zero row per experiment of its width |
| Ensemble.XYFitEnsemble.Run | kafe/fit/xy/ensemble.py:321-327 | after the run, row `j` of every variable is experiment `j`'s value, for all `n_exp` experiments |
| Ensemble.XYFitEnsemble.GetResultsAsWritten | kafe/fit/xy/ensemble.py:329-354 | `get_results` with the check as written |
| Ensemble.XYFitEnsemble.GetResults | kafe/fit/xy/ensemble.py:329-354 | with no names, every requested variable; otherwise the intended check, then the collected variables |
| Ensemble.XYFitEnsemble.GetResultsStatistics | kafe/fit/xy/ensemble.py:356-391 | `'all'` means the requested results and the statistics mean and std; the result is `StatsTable` of those |

## Left out

- I/O: the `print "BACKTRACK"` statement (line 539) and all plotting in `ensemble.py`.
- Foreign numerics are oracles with no promised properties. These are scipy's `minimize` and `brentq`, numdifftools' Hessian and gradient, and numpy's trigonometry and square root.
  - So nothing is proved about the optimizer staying within the bounds.
  - Nothing is proved about the accuracy of a contour.
- Floating point: all reals are exact. The tolerance 1e-6 and `max_calls` are passed through, not interpreted.
- `ContourFactory` (lines 436 and 557) is not part of this model. The tracers return their axes, grid and point list directly.
- The calls `self._func_wrapper_unpack_args(self._par_val)` at lines 435, 556 and 607 are left out. Their result is discarded, and the cost oracle has no side effects.
- `_contour_old` (lines 207-286) is not modelled. `contour` never dispatches to it.
- Minimizer.MinimizerScipyOptimize.Minimize: the fix constraints of lines 155-159 are not modelled. They are closures over late-bound loop variables, and they are unreachable, because `fix` always raises.
- The trivial getters are not modelled:
  - `errordef`, `tolerance`, `cov_mat` and `hessian_inv`;
  - `parameter_values`, `parameter_errors` and `parameter_names`;
  - `n_exp`, `n_par`, and `n_df` (lines 299-304), which is the data points less the parameters.
- `hessian`, the matrix inverse `.I`, and `cor_mat` are not modelled. `cor_mat` always raises `NotImplementedError`.
- Minimizer.MinimizerScipyOptimize.constructor: it requires parameter lists of equal length and numerics that keep vector lengths. The source assumes both without checking.
- Ensemble.XYFitEnsemble.InitializeVariables: the `cost` variable has rows of width 1 instead of numpy's scalar per experiment. The distributions and plotters are not modelled.
- Ensemble.XYFitEnsemble.Run: pseudo-data generation, the toy fit and the result properties are one oracle, `outcome(i, name)`, which cannot fail. So the three raises of `_generate_pseudodata` (lines 123-164) are not modelled: no data error model (line 127), an `x` covariance matrix that is not positive definite (line 139) and a `y` covariance matrix that is not positive definite (line 156). Neither are numpy's shape checks in `set_value`.
- Python sets: `_DEFAULT_RESULTS` and `_DEFAULT_STATISTICS` are sets, to be iterated in some order. The model fixes the order written in the source.
- The statistics themselves are left symbolic. Each entry records the statistic name and the samples it is computed from.
- `add_simple_error` and `add_matrix_error` only delegate to the fit object, which is not part of this model.
- Beacon.TraceFrom: it states the start point, the bound on the length, the bounds on the pass count, the stop distance and the length bookkeeping. It does not state the list of traced points as a function of the oracles.
- GridTracer.HeuristicGrid: it states the grid each round starts from and leaves, the crop and the contour. It does not state the order of the unsure list's `pop`, which Python leaves to the set. The model drains the list in an arbitrary order, so every order is covered.
- GridTracer.Refine: for each round it states that a cell of the pass holds its cost if it was confirmed and its pass value otherwise. It does not state which cells the unsure list reaches, so the confirmed cells of a round are not given as a function of the grid.
- GridTracer.IntArg: a string is parsed as ASCII decimal digits with an optional sign. Python 2 also accepts other Unicode decimal digits in a `unicode` string; that is not modelled.
- PyBase.ParseInt: integers are unbounded, so white space after the sign is skipped for every value. In Python 2 a literal too large for a C `long` is re-parsed by `long()`, which refuses white space after the sign; that case is not modelled.

## Findings

| source | as written | input that shows it | evidently intended | confidence | as-written member | corrected member |
|---|---|---|---|---|---|---|
| kafe/core/minimizers/scipy_optimize_minimizer.py:293-296 | `raise MinimizerScipyOptimize("…")` calls the minimizer class with one argument, which raises `TypeError` | `contour(a, b, initial_points=0)` | raise `MinimizerScipyOptimizeException` with the message | not executed | GridTracer.GridArgumentsAsWritten | GridTracer.GridArguments |
| kafe/core/minimizers/scipy_optimize_minimizer.py:602-606 | `_y_offset` is computed but never subtracted from `_y` | `profile(name, subtract_min=True)` with a non-zero function value: the curve is unchanged | every bin less the function value | not executed | Minimizer.MinimizerScipyOptimize.ProfileAsWritten | Minimizer.MinimizerScipyOptimize.Profile |
| kafe/core/minimizers/scipy_optimize_minimizer.py:415-432 | the slices `[left:right]` and `[bottom:top]` exclude the inclusive upper cutoffs | a contour reaching the last row of the grid (a small `area_scale_factor`): the right cutoff clamps to the last index, and that row is dropped; a contour within one row (a large `area_scale_factor`, so no padding; `GridTracer.PaddingOfHundred` and `GridTracer.OneRowCrop`) keeps no rows, and `np.min` raises at line 420 | slices up to and including each upper cutoff | not executed | GridTracer.CropAsWritten | GridTracer.Crop |
| kafe/fit/xy/ensemble.py:341-344 | `get_results` checks `self._requested_results`, which the constructor already checked, instead of `results` | `get_results("chi2")`: no `ValueError`; the loop raises "not collected" instead | check the given names | not executed | Ensemble.UnknownResultNotRejected | Ensemble.XYFitEnsemble.GetResults |
