/**
 * The bookkeeping of the fit ensemble (`XYFitEnsemble`): the subplot-grid
 * search, the validation of the requested result variables, the run loop
 * that fills one row of every variable per pseudo-experiment, and the
 * lookups of `get_results` and `get_results_statistics`. Generating the
 * pseudo-data and fitting it are one oracle, the statistics themselves are
 * left symbolic, and plotting is not modelled.
 */
module Ensemble {
  import opened PyBase

  // ---------------------------------------------------------------------------
  // `_heuristic_optimal_subplot_grid_size` (lines 19-36)

  /** The cost of a layout too small for all the subplots. */
  const Penalty: real := 100000.0

  function Square(x: real): real {
    x * x
  }

  function Product(a: int, b: int): int {
    a * b
  }

  /** `f2(s, k)`: a layout of `s` rows and `s + k` columns for `n` subplots.
      One too small gets the penalty; the others pay for each empty cell
      (weighted by one minus the priority `p`) and for being wider than
      square (weighted by `p`). */
  function LayoutCost(n: int, p: real, s: int, k: int): real
    requires s >= 1
  {
    if n > Product(s, s + k) then Penalty
    else Square((Product(s, s + k) - n) as real) * (1.0 - p) + Square((k as real) / (s as real)) * p
  }

  /** The scanned layouts: `s` from 1 to `n - 1`, `k` from 0 to `n - 1`. */
  predicate Scanned(n: int, s: int, k: int) {
    1 <= s < n && 0 <= k < n
  }

  /** The scan order of the nested loops: by `s`, then by `k`. */
  predicate Before(s: int, k: int, s': int, k': int) {
    s < s' || (s == s' && k < k')
  }

  /** `(s, k)` is the first layout of the scan reaching the minimum cost: no
      layout costs less, and every earlier one costs more. */
  ghost predicate FirstMinimum(n: int, p: real, s: int, k: int) {
    && Scanned(n, s, k)
    && forall s', k' :: Scanned(n, s', k') ==>
         LayoutCost(n, p, s', k') >= LayoutCost(n, p, s, k)
         && (Before(s', k', s, k) ==> LayoutCost(n, p, s', k') > LayoutCost(n, p, s, k))
  }

  /** There is only one first minimum. */
  lemma FirstMinimumUnique(n: int, p: real, s: int, k: int, s': int, k': int)
    requires FirstMinimum(n, p, s, k) && FirstMinimum(n, p, s', k')
    ensures s == s' && k == k'
  {
  }

  /** The loops' state after every layout before `(s, k)` was scanned: `best`
      is `None` (the initial `np.inf`) until a layout was scanned, and then
      `(bs, bk)` is the first minimum among the scanned layouts. */
  ghost predicate BestSoFar(n: int, p: real, s: int, k: int, best: Option<real>, bs: int, bk: int) {
    && (best.None? ==> s == 1 && k == 0)
    && (best.Some? ==>
          && Scanned(n, bs, bk) && Before(bs, bk, s, k) && best.value == LayoutCost(n, p, bs, bk)
          && forall s', k' :: Scanned(n, s', k') && Before(s', k', s, k) ==>
               LayoutCost(n, p, s', k') >= best.value
               && (Before(s', k', bs, bk) ==> LayoutCost(n, p, s', k') > best.value))
  }

  /** One pass of the inner loop: the layout `(s, k)` replaces the best one
      when it costs strictly less. */
  method ConsiderLayout(n: int, p: real, s: int, k: int, best: Option<real>, bs: int, bk: int)
    returns (best': Option<real>, bs': int, bk': int)
    requires Scanned(n, s, k) && BestSoFar(n, p, s, k, best, bs, bk)
    ensures BestSoFar(n, p, s, k + 1, best', bs', bk')
  {
    var f := LayoutCost(n, p, s, k);
    if best.None? || f < best.value {
      best', bs', bk' := Some(f), s, k;
    } else {
      best', bs', bk' := best, bs, bk;
    }
    forall s', k' | Scanned(n, s', k') && Before(s', k', s, k + 1)
      ensures LayoutCost(n, p, s', k') >= best'.value
      ensures Before(s', k', bs', bk') ==> LayoutCost(n, p, s', k') > best'.value
    {
      if Before(s', k', s, k) {
        assert best.Some?;
      }
    }
  }

  /** Moving from the end of one row of the scan to the start of the next. */
  lemma NextRow(n: int, p: real, s: int, best: Option<real>, bs: int, bk: int)
    requires n >= 1 && s >= 1 && BestSoFar(n, p, s, n, best, bs, bk) && best.Some?
    ensures BestSoFar(n, p, s + 1, 0, best, bs, bk)
  {
    forall s', k' | Scanned(n, s', k') && Before(s', k', s + 1, 0)
      ensures Before(s', k', s, n)
    {
    }
  }

  /** `_heuristic_optimal_subplot_grid_size`: the rows and columns of the
      first cheapest layout of the scan, which is never taller than wide;
      with fewer than two subplots nothing is scanned and the result is
      `(n, n)`. */
  method SubplotGridSize(n: int, p: real) returns (rows: int, cols: int)
    ensures n <= 1 ==> rows == n && cols == n
    ensures n >= 2 ==> FirstMinimum(n, p, rows, cols - rows)
    ensures cols >= rows
  {
    var best: Option<real> := None;
    var bs, bk := n, 0;
    var s := 1;
    while s < n
      invariant (s == 1 && best.None?) || (2 <= s <= n && best.Some?)
      invariant best.None? ==> bs == n && bk == 0
      invariant BestSoFar(n, p, s, 0, best, bs, bk)
    {
      var k := 0;
      while k < n
        invariant 0 <= k <= n
        invariant best.None? ==> k == 0 && bs == n && bk == 0
        invariant BestSoFar(n, p, s, k, best, bs, bk)
      {
        best, bs, bk := ConsiderLayout(n, p, s, k, best, bs, bk);
        k := k + 1;
      }
      NextRow(n, p, s, best, bs, bk);
      s := s + 1;
    }
    rows, cols := bs, bs + bk;
    if n >= 2 {
      assert best.Some?;
      forall s', k' | Scanned(n, s', k')
        ensures Before(s', k', n, 0)
      {
      }
    }
  }

  // ---------------------------------------------------------------------------
  // Result variables and statistics

  /** The keys of `AVAILABLE_RESULTS` (lines 494-497). */
  const AvailableResults: set<string> := {"parameter_pulls", "y_pulls", "cost", "y_data"}

  /** `_DEFAULT_RESULTS` (line 498), a Python set: its iteration order is
      taken to be the one written here. */
  const DefaultResults: seq<string> := ["y_pulls", "parameter_pulls", "cost"]

  /** The keys of `AVAILABLE_STATISTICS` (lines 66-73). */
  const AvailableStatistics: set<string> := {"mean", "std", "skew", "kurtosis", "cor_mat", "cov_mat"}

  /** `_DEFAULT_STATISTICS` (line 74), in the order written here. */
  const DefaultStatistics: seq<string> := ["mean", "std"]

  /** One experiment's value of a result variable. */
  type Row = seq<real>

  /** A variable's values: one row per experiment. */
  type Samples = seq<Row>

  /** A statistic of a variable's samples, computed by `EnsembleVariable`,
      which is not part of this model: it is kept symbolic. */
  datatype StatValue = StatValue(statistic: string, samples: Samples)

  /** `'all'` or an explicit list of names. */
  datatype Selection = All | Names(names: seq<string>)

  function Elements(s: seq<string>): set<string> {
    set j | 0 <= j < |s| :: s[j]
  }

  lemma ElementsStep(s: seq<string>)
    requires |s| > 0
    ensures Elements(s) == Elements(s[..|s| - 1]) + {s[|s| - 1]}
  {
    var init := s[..|s| - 1];
    forall x | x in Elements(s) ensures x in Elements(init) + {s[|s| - 1]} {
      var j :| 0 <= j < |s| && s[j] == x;
      if j < |s| - 1 {
        assert init[j] == x;
      }
    }
  }

  /** The position of the first name outside `keys`. */
  function FirstOutside(keys: set<string>, names: seq<string>): (j: nat)
    requires exists j :: 0 <= j < |names| && names[j] !in keys
    ensures j < |names| && names[j] !in keys
    ensures forall i :: 0 <= i < j ==> names[i] in keys
  {
    if names[0] !in keys then 0
    else
      assert exists j :: 0 <= j < |names[1..]| && names[1..][j] !in keys by {
        var j :| 0 <= j < |names| && names[j] !in keys;
        assert names[1..][j - 1] == names[j];
      }
      1 + FirstOutside(keys, names[1..])
  }

  /** A first outsider of a prefix is also the first of the whole list. */
  lemma FirstOutsidePrefix(keys: set<string>, names: seq<string>, m: nat)
    requires m <= |names| && exists j :: 0 <= j < m && names[j] !in keys
    ensures FirstOutside(keys, names[..m]) == FirstOutside(keys, names)
  {
    var a, b := FirstOutside(keys, names[..m]), FirstOutside(keys, names);
    assert names[..m][a] == names[a];
    assert b <= a;
    assert names[..m][b] == names[b];
  }

  /** The loop of `get_results` (lines 346-352): the samples of each name, in
      order, or the first name without a collected variable. */
  function Collected(vars: map<string, Samples>, names: seq<string>): (r: Result<map<string, Samples>>)
  {
    if |names| == 0 then Ok(map[])
    else
      var init :- Collected(vars, names[..|names| - 1]);
      var last := names[|names| - 1];
      if last !in vars then Err(ResultNotCollected(last)) else Ok(init[last := vars[last]])
  }

  /** What the lookup returns: it succeeds exactly when every name has a
      variable, with one entry per name holding that variable's samples, and
      otherwise names the first name without one. */
  lemma {:induction false} CollectedMeaning(vars: map<string, Samples>, names: seq<string>)
    ensures var r := Collected(vars, names);
      r.Ok? <==> forall j :: 0 <= j < |names| ==> names[j] in vars
    ensures var r := Collected(vars, names);
      r.Ok? ==> r.value.Keys == Elements(names) && forall k :: k in r.value ==> k in vars && r.value[k] == vars[k]
    ensures var r := Collected(vars, names);
      r.Err? ==> (exists j :: 0 <= j < |names| && names[j] !in vars) && r.error == ResultNotCollected(names[FirstOutside(vars.Keys, names)])
  {
    if |names| > 0 {
      var init := names[..|names| - 1];
      CollectedMeaning(vars, init);
      ElementsStep(names);
      if Collected(vars, init).Err? {
        FirstOutsidePrefix(vars.Keys, names, |names| - 1);
      } else if names[|names| - 1] !in vars {
        assert forall j :: 0 <= j < |names| - 1 ==> names[j] == init[j];
      }
    }
  }

  /** The inner loop of `get_results_statistics` (lines 383-389): each named
      statistic of the samples, or the first unknown statistic. */
  function StatsRow(samples: Samples, stats: seq<string>): (r: Result<map<string, StatValue>>)
  {
    if |stats| == 0 then Ok(map[])
    else
      var init :- StatsRow(samples, stats[..|stats| - 1]);
      var last := stats[|stats| - 1];
      if last !in AvailableStatistics then Err(UnknownStatistic(last)) else Ok(init[last := StatValue(last, samples)])
  }

  /** What one result's statistics are: they exist exactly when every name
      is a known statistic, with one entry per name, and otherwise the first
      unknown name raises. */
  lemma {:induction false} StatsRowMeaning(samples: Samples, stats: seq<string>)
    ensures var r := StatsRow(samples, stats);
      r.Ok? <==> forall j :: 0 <= j < |stats| ==> stats[j] in AvailableStatistics
    ensures var r := StatsRow(samples, stats);
      r.Ok? ==> r.value.Keys == Elements(stats) && forall k :: k in r.value ==> r.value[k] == StatValue(k, samples)
    ensures var r := StatsRow(samples, stats);
      r.Err? ==> (exists j :: 0 <= j < |stats| && stats[j] !in AvailableStatistics)
                 && r.error == UnknownStatistic(stats[FirstOutside(AvailableStatistics, stats)])
  {
    if |stats| > 0 {
      var init := stats[..|stats| - 1];
      StatsRowMeaning(samples, init);
      ElementsStep(stats);
      if StatsRow(samples, init).Err? {
        FirstOutsidePrefix(AvailableStatistics, stats, |stats| - 1);
      } else if stats[|stats| - 1] !in AvailableStatistics {
        assert forall j :: 0 <= j < |stats| - 1 ==> stats[j] == init[j];
      }
    }
  }

  /** The outer loop of `get_results_statistics` (lines 372-391), as the loop
      runs it: each name's variable must exist, and then its statistics are
      computed. */
  function StatsTable(vars: map<string, Samples>, results: seq<string>, stats: seq<string>)
    : (r: Result<map<string, map<string, StatValue>>>)
  {
    if |results| == 0 then Ok(map[])
    else
      var init :- StatsTable(vars, results[..|results| - 1], stats);
      var last := results[|results| - 1];
      if last !in vars then Err(ResultNotCollected(last))
      else
        var row :- StatsRow(vars[last], stats);
        Ok(init[last := row])
  }

  /** When the statistics lookup succeeds: every result has a collected
      variable and, unless there are no results at all, every statistic is
      known; each result then maps to its statistics. */
  lemma {:induction false} StatsTableOk(vars: map<string, Samples>, results: seq<string>, stats: seq<string>)
    ensures var r := StatsTable(vars, results, stats);
      r.Ok? <==> (forall j :: 0 <= j < |results| ==> results[j] in vars)
                 && (|results| == 0 || forall j :: 0 <= j < |stats| ==> stats[j] in AvailableStatistics)
    ensures var r := StatsTable(vars, results, stats);
      r.Ok? ==> r.value.Keys == Elements(results)
                && forall k :: k in r.value ==> k in vars && StatsRow(vars[k], stats).Ok? && r.value[k] == StatsRow(vars[k], stats).value
  {
    if |results| > 0 {
      var init := results[..|results| - 1];
      var last := results[|results| - 1];
      StatsTableOk(vars, init, stats);
      ElementsStep(results);
      if last in vars {
        StatsRowMeaning(vars[last], stats);
      }
      assert forall j :: 0 <= j < |results| - 1 ==> results[j] == init[j];
    }
  }

  /** Which error the statistics lookup raises: the first result decides an
      unknown statistic's error (its own variable missing, or else the first
      unknown statistic), and with known statistics the error names the
      first result without a variable. */
  lemma {:induction false} StatsTableErr(vars: map<string, Samples>, results: seq<string>, stats: seq<string>)
    ensures var r := StatsTable(vars, results, stats);
      |results| > 0 && results[0] !in vars ==> r == Err(ResultNotCollected(results[0]))
    ensures var r := StatsTable(vars, results, stats);
      |results| > 0 && results[0] in vars && (exists j :: 0 <= j < |stats| && stats[j] !in AvailableStatistics) ==>
        r == Err(UnknownStatistic(stats[FirstOutside(AvailableStatistics, stats)]))
    ensures var r := StatsTable(vars, results, stats);
      r.Err? && (forall j :: 0 <= j < |stats| ==> stats[j] in AvailableStatistics) ==>
        (exists j :: 0 <= j < |results| && results[j] !in vars)
        && r == Err(ResultNotCollected(results[FirstOutside(vars.Keys, results)]))
  {
    if |results| > 0 {
      var init := results[..|results| - 1];
      var last := results[|results| - 1];
      StatsTableErr(vars, init, stats);
      StatsTableOk(vars, init, stats);
      if |init| > 0 {
        assert init[0] == results[0];
      }
      if results[0] in vars {
        StatsRowMeaning(vars[results[0]], stats);
      }
      if last in vars {
        StatsRowMeaning(vars[last], stats);
      }
      if StatsTable(vars, init, stats).Err? && (forall j :: 0 <= j < |stats| ==> stats[j] in AvailableStatistics) {
        FirstOutsidePrefix(vars.Keys, results, |results| - 1);
      } else if StatsTable(vars, init, stats).Ok? && last !in vars {
        assert forall j :: 0 <= j < |results| - 1 ==> results[j] == init[j];
        assert results[|results| - 1] !in vars;
        assert results[|results| - 1] !in vars.Keys;
        var f := FirstOutside(vars.Keys, results);
        assert f == |results| - 1;
      }
    }
  }

  /** `get_results` as written (lines 337-344): the check of lines 341-344
      looks at the requested results instead of the given ones. */
  function ResultNamesAsWritten(requested: seq<string>, results: seq<string>): (r: Result<seq<string>>)
    ensures |results| == 0 ==> r == Ok(requested)
    ensures |results| > 0 ==> (r.Ok? <==> Elements(requested) <= AvailableResults)
    ensures r.Err? ==> r.error == UnavailableResults(Elements(requested) - AvailableResults)
    ensures r.Ok? && |results| > 0 ==> r.value == results
  {
    if |results| == 0 then Ok(requested)
    else
      var unavailable := Elements(requested) - AvailableResults;
      if unavailable != {} then Err(UnavailableResults(unavailable)) else Ok(results)
  }

  /** The check as intended: the given names are the ones validated. */
  function ResultNames(requested: seq<string>, results: seq<string>): (r: Result<seq<string>>)
    ensures |results| == 0 ==> r == Ok(requested)
    ensures |results| > 0 ==> (r.Ok? <==> Elements(results) <= AvailableResults)
    ensures r.Err? ==> r.error == UnavailableResults(Elements(results) - AvailableResults)
    ensures r.Ok? && |results| > 0 ==> r.value == results
  {
    if |results| == 0 then Ok(requested)
    else
      var unavailable := Elements(results) - AvailableResults;
      if unavailable != {} then Err(UnavailableResults(unavailable)) else Ok(results)
  }

  /** As written, once the requested results have passed the constructor's
      check, the check never raises: a name that is not a result variable at
      all is let through to the lookup, which reports it as not collected,
      where the intended check reports it as unavailable. */
  lemma UnknownResultNotRejected(requested: seq<string>, results: seq<string>, vars: map<string, Samples>)
    requires Elements(requested) <= AvailableResults && vars.Keys == Elements(requested)
    requires |results| > 0 && results[0] !in AvailableResults
    ensures ResultNamesAsWritten(requested, results) == Ok(results)
    ensures Collected(vars, results) == Err(ResultNotCollected(results[0]))
    ensures ResultNames(requested, results) == Err(UnavailableResults(Elements(results) - AvailableResults))
    ensures ResultNames(requested, results) != ResultNamesAsWritten(requested, results)
  {
    assert results[0] !in vars;
    assert FirstOutside(vars.Keys, results) == 0;
  }

  /** The constructor's check (lines 111-119): no list means the default
      results; a list with a name that is not a result variable raises. */
  function ValidateRequested(requested: Option<seq<string>>): (r: Result<seq<string>>)
    ensures requested.None? ==> r == Ok(DefaultResults)
    ensures requested.Some? ==> (r.Ok? <==> Elements(requested.value) <= AvailableResults)
    ensures requested.Some? && r.Ok? ==> r.value == requested.value
    ensures r.Err? ==> requested.Some? && r.error == UnavailableResults(Elements(requested.value) - AvailableResults)
    ensures r.Ok? ==> Elements(r.value) <= AvailableResults
  {
    if requested.None? then
      assert Elements(DefaultResults) == {"y_pulls", "parameter_pulls", "cost"} by {
        assert DefaultResults[0] == "y_pulls" && DefaultResults[1] == "parameter_pulls" && DefaultResults[2] == "cost";
      }
      Ok(DefaultResults)
    else
      var unavailable := Elements(requested.value) - AvailableResults;
      if unavailable != {} then Err(UnavailableResults(unavailable)) else Ok(requested.value)
  }

  /** The width of a variable's row: one per data point for the y
      variables, one per parameter for the parameter pulls, and a single
      value for the cost. */
  function Width(name: string, nDat: nat, nPar: nat): nat {
    if name == "y_pulls" || name == "y_data" then nDat
    else if name == "parameter_pulls" then nPar
    else 1
  }

  function Zeros(w: nat): (r: Row)
    ensures |r| == w
  {
    seq(w, _ => 0.0)
  }

  /** The gathering loop of one experiment (lines 167-169): row `i` of every
      requested variable becomes that experiment's value. */
  method GatherRow(vars: map<string, Samples>, requested: seq<string>, i: nat, row: string -> Row)
    returns (vars': map<string, Samples>)
    requires Elements(requested) <= vars.Keys
    requires forall k :: k in vars ==> i < |vars[k]|
    ensures vars'.Keys == vars.Keys
    ensures forall k :: k in vars ==> |vars'[k]| == |vars[k]|
    ensures forall k :: k in vars ==> forall j :: 0 <= j < |vars[k]| && j != i ==> vars'[k][j] == vars[k][j]
    ensures forall k :: k in Elements(requested) ==> vars'[k][i] == row(k)
    ensures forall k :: k in vars && k !in Elements(requested) ==> vars'[k] == vars[k]
  {
    vars' := vars;
    for t := 0 to |requested|
      invariant vars'.Keys == vars.Keys
      invariant forall k :: k in vars ==> |vars'[k]| == |vars[k]|
      invariant forall k :: k in vars ==> forall j :: 0 <= j < |vars[k]| && j != i ==> vars'[k][j] == vars[k][j]
      invariant forall k :: k in Elements(requested[..t]) ==> vars'[k][i] == row(k)
      invariant forall k :: k in vars && k !in Elements(requested[..t]) ==> vars'[k] == vars[k]
    {
      var name := requested[t];
      assert name in Elements(requested);
      ElementsStep(requested[..t + 1]);
      assert requested[..t + 1][..t] == requested[..t];
      vars' := vars'[name := vars'[name][i := row(name)]];
    }
    assert requested[..|requested|] == requested;
  }

  // ---------------------------------------------------------------------------
  // The ensemble object

  class XYFitEnsemble {
    /** `n_experiments` */
    var nExp: int
    /** `n_par`: the number of model parameters. */
    var nPar: nat
    /** `n_dat`: the size of the data container, one point per x support value. */
    var nDat: nat
    var requested: seq<string>
    /** The ensemble variables by name. */
    var variables: map<string, Samples>

    /** The object's invariant: only result variables are requested (the
        constructor checked them), each has a variable, and each variable
        has a row per experiment. */
    ghost predicate Valid()
      reads this
    {
      && Elements(requested) <= AvailableResults
      && variables.Keys == Elements(requested)
      && (|requested| > 0 ==> nExp >= 0)
      && forall k :: k in variables ==> |variables[k]| == nExp
    }

    /** A fresh object with its counts and requested results (the checks are
        `Create`'s). */
    constructor (nExp: int, nPar: nat, nDat: nat, requested: seq<string>)
      requires Elements(requested) <= AvailableResults && (|requested| > 0 ==> nExp >= 0)
      ensures Valid()
      ensures this.nExp == nExp && this.nPar == nPar && this.nDat == nDat && this.requested == requested
      ensures forall k :: k in variables ==> forall j :: 0 <= j < nExp ==> variables[k][j] == Zeros(Width(k, nDat, nPar))
    {
      this.nExp, this.nPar, this.nDat, this.requested := nExp, nPar, nDat, requested;
      new;
      InitializeVariables();
    }

    /** `_initialize_ensemble_variables` (lines 188-241): a zero array of
        one row per experiment for every requested variable. */
    method InitializeVariables()
      requires Elements(requested) <= AvailableResults && (|requested| > 0 ==> nExp >= 0)
      modifies this
      ensures Valid()
      ensures nExp == old(nExp) && nPar == old(nPar) && nDat == old(nDat) && requested == old(requested)
      ensures forall k :: k in variables ==> forall j :: 0 <= j < nExp ==> variables[k][j] == Zeros(Width(k, nDat, nPar))
    {
      var n, d, q := if nExp < 0 then 0 else nExp, nDat, nPar;
      variables := map k | k in Elements(requested) :: seq(n, _ => Zeros(Width(k, d, q)));
    }

    /** `run` (lines 321-327): the variables are reset, and experiment `i`
        of `n_exp` fills row `i` of every variable with its value. What an
        experiment yields (fresh pseudo-data and the fit to it) is the
        oracle `outcome`. */
    method Run(outcome: (int, string) -> Row)
      requires Valid()
      modifies this
      ensures Valid()
      ensures nExp == old(nExp) && nPar == old(nPar) && nDat == old(nDat) && requested == old(requested)
      ensures variables.Keys == Elements(requested)
      ensures forall k :: k in variables ==> variables[k] == seq(nExp, j => outcome(j, k))
    {
      InitializeVariables();
      var i := 0;
      while i < nExp
        invariant Valid() && RoundsDone(variables, nExp, i, outcome, nDat, nPar)
        invariant 0 <= i && (nExp >= 0 ==> i <= nExp)
        invariant nExp == old(nExp) && nPar == old(nPar) && nDat == old(nDat) && requested == old(requested)
      {
        RunRound(i, outcome);
        i := i + 1;
      }
      forall k | k in variables
        ensures variables[k] == seq(nExp, j => outcome(j, k))
      {
        assert i == nExp;
        assert |variables[k]| == nExp;
        assert forall j :: 0 <= j < nExp ==> variables[k][j] == outcome(j, k);
      }
    }

    /** One pass of the loop of `run`: experiment `i` writes its row. */
    method RunRound(i: nat, outcome: (int, string) -> Row)
      requires Valid() && i < nExp && RoundsDone(variables, nExp, i, outcome, nDat, nPar)
      modifies this
      ensures Valid() && RoundsDone(variables, nExp, i + 1, outcome, nDat, nPar)
      ensures nExp == old(nExp) && nPar == old(nPar) && nDat == old(nDat) && requested == old(requested)
    {
      var vars := variables;
      var vars' := GatherRow(vars, requested, i, k => outcome(i, k));
      RoundsStep(vars, vars', nExp, i, outcome, nDat, nPar);
      variables := vars';
    }

    /** `get_results` as written. */
    method GetResultsAsWritten(results: seq<string>) returns (res: Result<map<string, Samples>>)
      requires Valid()
      ensures var names := ResultNamesAsWritten(requested, results);
        res == if names.Err? then Err(names.error) else Collected(variables, names.value)
    {
      var names := ResultNamesAsWritten(requested, results);
      if names.Err? {
        return Err(names.error);
      }
      res := Collect(variables, names.value);
    }

    /** `get_results` with the intended check: with no names every requested
        variable, otherwise the named ones, which must be result variables
        and collected. */
    method GetResults(results: seq<string>) returns (res: Result<map<string, Samples>>)
      requires Valid()
      ensures |results| == 0 ==> res.Ok? && res.value.Keys == Elements(requested)
      ensures var names := ResultNames(requested, results);
        res == if names.Err? then Err(names.error) else Collected(variables, names.value)
    {
      var names := ResultNames(requested, results);
      if names.Err? {
        return Err(names.error);
      }
      CollectedMeaning(variables, names.value);
      res := Collect(variables, names.value);
    }

    /** `get_results_statistics` (lines 356-391): `'all'` stands for the
        requested results and for the default statistics mean and std. */
    method GetResultsStatistics(results: Selection, statistics: Selection)
      returns (res: Result<map<string, map<string, StatValue>>>)
      requires Valid()
      ensures res == StatsTable(variables, if results.All? then requested else results.names,
                                if statistics.All? then DefaultStatistics else statistics.names)
    {
      var names := if results.All? then requested else results.names;
      var stats := if statistics.All? then DefaultStatistics else statistics.names;
      res := Tabulate(variables, names, stats);
    }
  }

  /** The rows of the first `i` experiments hold their values, the rest are
      still zero. */
  ghost predicate RoundsDone(vars: map<string, Samples>, n: int, i: int, outcome: (int, string) -> Row, nDat: nat, nPar: nat) {
    forall k :: k in vars ==>
      && |vars[k]| == n
      && (forall j :: 0 <= j < i && j < n ==> vars[k][j] == outcome(j, k))
      && (forall j :: i <= j < n && 0 <= j ==> vars[k][j] == Zeros(Width(k, nDat, nPar)))
  }

  /** Writing row `i` of every variable advances the rounds by one. */
  lemma RoundsStep(vars: map<string, Samples>, vars': map<string, Samples>, n: int, i: nat,
                   outcome: (int, string) -> Row, nDat: nat, nPar: nat)
    requires RoundsDone(vars, n, i, outcome, nDat, nPar) && i < n
    requires vars'.Keys == vars.Keys
    requires forall k :: k in vars ==> |vars'[k]| == |vars[k]|
    requires forall k :: k in vars ==> forall j :: 0 <= j < |vars[k]| && j != i ==> vars'[k][j] == vars[k][j]
    requires forall k :: k in vars ==> vars'[k][i] == outcome(i, k)
    ensures RoundsDone(vars', n, i + 1, outcome, nDat, nPar)
  {
  }

  /** Once a prefix of the names raises, the whole loop raises the same. */
  lemma CollectedPrefixErr(vars: map<string, Samples>, names: seq<string>, m: nat)
    requires m <= |names| && Collected(vars, names[..m]).Err?
    ensures Collected(vars, names) == Collected(vars, names[..m])
    decreases |names|
  {
    if m == |names| {
      assert names[..m] == names;
    } else {
      var init := names[..|names| - 1];
      assert init[..m] == names[..m];
      CollectedPrefixErr(vars, init, m);
    }
  }

  lemma StatsRowPrefixErr(samples: Samples, stats: seq<string>, m: nat)
    requires m <= |stats| && StatsRow(samples, stats[..m]).Err?
    ensures StatsRow(samples, stats) == StatsRow(samples, stats[..m])
    decreases |stats|
  {
    if m == |stats| {
      assert stats[..m] == stats;
    } else {
      var init := stats[..|stats| - 1];
      assert init[..m] == stats[..m];
      StatsRowPrefixErr(samples, init, m);
    }
  }

  lemma StatsTablePrefixErr(vars: map<string, Samples>, results: seq<string>, stats: seq<string>, m: nat)
    requires m <= |results| && StatsTable(vars, results[..m], stats).Err?
    ensures StatsTable(vars, results, stats) == StatsTable(vars, results[..m], stats)
    decreases |results|
  {
    if m == |results| {
      assert results[..m] == results;
    } else {
      var init := results[..|results| - 1];
      assert init[..m] == results[..m];
      StatsTablePrefixErr(vars, init, stats, m);
    }
  }

  /** The loop of `get_results` (lines 346-352). */
  method Collect(vars: map<string, Samples>, names: seq<string>) returns (res: Result<map<string, Samples>>)
    ensures res == Collected(vars, names)
  {
    var dict := map[];
    for i := 0 to |names|
      invariant Collected(vars, names[..i]) == Ok(dict)
    {
      assert names[..i + 1][..i] == names[..i];
      var v := names[i];
      if v !in vars {
        CollectedPrefixErr(vars, names, i + 1);
        return Err(ResultNotCollected(v));
      }
      dict := dict[v := vars[v]];
    }
    assert names[..|names|] == names;
    res := Ok(dict);
  }

  /** The inner loop of `get_results_statistics` (lines 383-389). */
  method StatsFor(samples: Samples, stats: seq<string>) returns (res: Result<map<string, StatValue>>)
    ensures res == StatsRow(samples, stats)
  {
    var dict := map[];
    for i := 0 to |stats|
      invariant StatsRow(samples, stats[..i]) == Ok(dict)
    {
      assert stats[..i + 1][..i] == stats[..i];
      var name := stats[i];
      if name !in AvailableStatistics {
        StatsRowPrefixErr(samples, stats, i + 1);
        return Err(UnknownStatistic(name));
      }
      dict := dict[name := StatValue(name, samples)];
    }
    assert stats[..|stats|] == stats;
    res := Ok(dict);
  }

  /** The outer loop of `get_results_statistics` (lines 372-391). */
  method Tabulate(vars: map<string, Samples>, results: seq<string>, stats: seq<string>)
    returns (res: Result<map<string, map<string, StatValue>>>)
    ensures res == StatsTable(vars, results, stats)
  {
    var dict := map[];
    for i := 0 to |results|
      invariant StatsTable(vars, results[..i], stats) == Ok(dict)
    {
      assert results[..i + 1][..i] == results[..i];
      var name := results[i];
      if name !in vars {
        StatsTablePrefixErr(vars, results, stats, i + 1);
        return Err(ResultNotCollected(name));
      }
      var row := StatsFor(vars[name], stats);
      if row.Err? {
        StatsTablePrefixErr(vars, results, stats, i + 1);
        return Err(row.error);
      }
      dict := dict[name := row.value];
    }
    assert results[..|results|] == results;
    res := Ok(dict);
  }

  /** The constructor with its check (lines 76-121): a name that is not a
      result variable raises, and so does a negative number of experiments
      once a variable's array is to be made. */
  method Create(nExp: int, nPar: nat, nDat: nat, requested: Option<seq<string>>) returns (r: Result<XYFitEnsemble>)
    ensures ValidateRequested(requested).Err? ==> r == Err(ValidateRequested(requested).error)
    ensures ValidateRequested(requested).Ok? && |ValidateRequested(requested).value| > 0 && nExp < 0 ==>
      r == Err(NegativeDimensions)
    ensures r.Ok? ==>
      ValidateRequested(requested).Ok? && fresh(r.value) && r.value.Valid() && r.value.requested == ValidateRequested(requested).value && r.value.nExp == nExp
      && r.value.nPar == nPar && r.value.nDat == nDat
    ensures ValidateRequested(requested).Ok? && (|ValidateRequested(requested).value| == 0 || nExp >= 0) ==> r.Ok?
    ensures r.Ok? ==>
      forall k :: k in r.value.variables ==> forall j :: 0 <= j < nExp ==> r.value.variables[k][j] == Zeros(Width(k, nDat, nPar))
  {
    var names := ValidateRequested(requested);
    if names.Err? {
      return Err(names.error);
    }
    if |names.value| > 0 && nExp < 0 {
      return Err(NegativeDimensions);
    }
    var e := new XYFitEnsemble(nExp, nPar, nDat, names.value);
    r := Ok(e);
  }
}
