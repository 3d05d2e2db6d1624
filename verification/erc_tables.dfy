/** compute_erc_weights: the offline ERC tables. For every calendar year
    2016..2024 the year's rows are cut from the return frame, the columns
    with a missing value that year are dropped, the optimiser is started from
    equal weights on the year's sample covariance, and one weight record and
    one risk-contribution record are appended, each a dictionary keyed by
    'year' and the year's asset names. */
module ErcTables {
  import opened Wrappers
  import opened Calendar
  import opened Panel
  import opened LinAlg
  import opened RiskParity
  import opened PeriodLoop

  /** The SLSQP call. It sees the year's covariance matrix (None when
      pandas would fill it with NaN) and the starting weights, and returns
      weights for the same assets that meet the constraints it is given:
      bounds 0..1 and a sum of one. */
  ghost predicate ErcSolver(solve: (Option<seq<seq<real>>>, seq<real>) -> seq<real>)
  {
    forall cov, x0 :: |solve(cov, x0)| == |x0| && (0 < |x0| ==> Simplex(solve(cov, x0)))
  }

  /** The training block of a year: its rows, without the columns that miss
      a value on any of them. */
  function TrainingSlice(daily: Frame, y: int): (g: Frame)
    requires WellFormed(daily)
    ensures WellFormed(g) && forall j :: 0 <= j < |g.columns| ==> Complete(g.columns[j])
  {
    DropIncomplete(YearRows(daily, y))
  }

  /** daily_returns_year.cov() */
  function YearCov(slice: Frame): (cov: Option<seq<seq<real>>>)
    requires WellFormed(slice) && forall j :: 0 <= j < |slice.columns| ==> Complete(slice.columns[j])
    ensures cov.Some? ==> Square(cov.value, |slice.columns|)
  {
    SampleCov(Dense(slice), |slice.columns|)
  }

  /** np.array(n * [1. / n]); Python raises ZeroDivisionError for n == 0. */
  function EqualWeights(n: nat): (x0: Result<seq<real>, string>)
    ensures x0.Success? <==> 0 < n
    ensures x0.Success? ==> |x0.value| == n && forall i :: 0 <= i < n ==> x0.value[i] == 1.0 / (n as real)
  {
    if n == 0 then Failure("ZeroDivisionError")
    else Success(seq(n, i requires 0 <= i < n => 1.0 / (n as real)))
  }

  /** The starting point is fully invested and long-only. */
  lemma EqualWeightsSimplex(n: nat)
    requires 0 < n
    ensures Simplex(EqualWeights(n).value)
  {
    var x0 := EqualWeights(n).value;
    assert AllEqual(x0);
    SumOfEqual(x0);
    LengthCancels(n as real, 1.0);
  }

  /** A dictionary row as pandas stores it: a cell per key, None for NaN. */
  type Record = map<string, Cell>

  /** The dictionary {'year': y} with names[i] set to vals[i], one after the
      other, as the zip loops do. */
  function Zip(y: int, names: seq<string>, vals: seq<Cell>): (rec: Record)
    requires |names| == |vals|
    ensures rec.Keys == {"year"} + set i | 0 <= i < |names| :: names[i]
  {
    if names == [] then map["year" := Some(y as real)]
    else
      var n := |names| - 1;
      var front := Zip(y, names[..n], vals[..n]);
      assert forall i :: 0 <= i < n ==> names[..n][i] == names[i];
      assert (set i | 0 <= i < |names| :: names[i]) == (set i | 0 <= i < n :: names[..n][i]) + {names[n]};
      front[names[n] := vals[n]]
  }

  /** Pairwise different names, as a DataFrame's columns are. */
  predicate Distinct(names: seq<string>)
  {
    forall i, j :: 0 <= i < j < |names| ==> names[i] != names[j]
  }

  /** With distinct names every name holds its own value, and 'year' holds
      the year unless an asset is itself called 'year'. */
  lemma {:induction false} ZipLookup(y: int, names: seq<string>, vals: seq<Cell>)
    requires |names| == |vals| && Distinct(names)
    ensures forall i :: 0 <= i < |names| ==> Zip(y, names, vals)[names[i]] == vals[i]
    ensures "year" !in names ==> Zip(y, names, vals)["year"] == Some(y as real)
  {
    if names != [] {
      var n := |names| - 1;
      var front := Zip(y, names[..n], vals[..n]);
      assert Distinct(names[..n]);
      ZipLookup(y, names[..n], vals[..n]);
      ZipStep(y, names, vals);
      forall i | 0 <= i < |names|
        ensures Zip(y, names, vals)[names[i]] == vals[i]
      {
        if i < n {
          assert names[..n][i] == names[i] && vals[..n][i] == vals[i];
          assert front[names[i]] == vals[i];
        }
      }
      if "year" !in names {
        assert "year" !in names[..n];
        assert front["year"] == Some(y as real);
      }
    }
  }

  /** The last name's value is written over the record of the others. */
  lemma ZipStep(y: int, names: seq<string>, vals: seq<Cell>)
    requires |names| == |vals| && names != []
    ensures Zip(y, names, vals) == Zip(y, names[..|names| - 1], vals[..|names| - 1])[names[|names| - 1] := vals[|names| - 1]]
  {
  }

  /** The risk contributions stored for weights w: NaN throughout when the
      covariance is NaN or the portfolio variance is not positive. */
  function StoredContributions(w: seq<real>, cov: Option<seq<seq<real>>>, root: real -> real): (rc: seq<Cell>)
    requires IsSqrt(root)
    requires cov.Some? ==> Square(cov.value, |w|)
    ensures |rc| == |w|
    ensures forall i :: 0 <= i < |w| ==>
              (rc[i].Some? <==> cov.Some? && RiskContributions(w, cov.value, root).Some?)
    ensures cov.Some? && RiskContributions(w, cov.value, root).Some? ==>
              forall i :: 0 <= i < |w| ==> rc[i] == Some(RiskContributions(w, cov.value, root).value[i])
  {
    if cov.None? then seq(|w|, i requires 0 <= i < |w| => None)
    else match RiskContributions(w, cov.value, root)
      case None => seq(|w|, i requires 0 <= i < |w| => None)
      case Some(v) => seq(|w|, i requires 0 <= i < |w| => Some(v[i]))
  }

  /** What the optimisation of one year produces: the year's asset names,
      its covariance matrix and the optimiser's weights. */
  datatype YearFit = YearFit(names: seq<string>, cov: Option<seq<seq<real>>>, weights: seq<real>)

  /** One weight per name, and a covariance matrix over the names. */
  predicate FitShape(fit: YearFit)
  {
    |fit.weights| == |fit.names| && (fit.cov.Some? ==> Square(fit.cov.value, |fit.names|))
  }

  /** The optimisation of year y: the training block's columns, its sample
      covariance, and the optimiser started from equal weights; the
      ZeroDivisionError of 1. / 0 when no column is complete. */
  function FitYear(daily: Frame, y: int, solve: (Option<seq<seq<real>>>, seq<real>) -> seq<real>)
    : (fit: Result<YearFit, string>)
    requires WellFormed(daily) && ErcSolver(solve)
    ensures fit.Success? <==> 0 < |TrainingSlice(daily, y).columns|
    ensures fit.Success? ==> FitShape(fit.value) && Simplex(fit.value.weights)
    ensures fit.Success? ==> fit.value.names == Names(TrainingSlice(daily, y).columns)
  {
    var slice := TrainingSlice(daily, y);
    var names := Names(slice.columns);
    match EqualWeights(|names|)
    case Failure(e) => Failure(e)
    case Success(x0) =>
      var cov := YearCov(slice);
      Success(YearFit(names, cov, solve(cov, x0)))
  }

  /** weight_dict: 'year' and each asset's optimised weight. */
  function WeightRecord(y: int, fit: YearFit): Record
    requires FitShape(fit)
  {
    Zip(y, fit.names, Present(fit.weights))
  }

  /** risk_contrib_dict: 'year' and each asset's risk contribution under
      the optimised weights. */
  function ContributionRecord(y: int, fit: YearFit, root: real -> real): Record
    requires FitShape(fit) && IsSqrt(root)
  {
    Zip(y, fit.names, StoredContributions(fit.weights, fit.cov, root))
  }

  /** The two records of one year, or the ZeroDivisionError of a year in
      which every column misses a value. */
  function YearRecords(daily: Frame, y: int, solve: (Option<seq<seq<real>>>, seq<real>) -> seq<real>,
                       root: real -> real): (recs: Result<(Record, Record), string>)
    requires WellFormed(daily) && ErcSolver(solve) && IsSqrt(root)
    ensures recs.Success? <==> 0 < |TrainingSlice(daily, y).columns|
  {
    match FitYear(daily, y, solve)
    case Failure(e) => Failure(e)
    case Success(fit) => Success((WeightRecord(y, fit), ContributionRecord(y, fit, root)))
  }

  /** One pass of the year loop of compute_erc_weights: the year's pair of
      records, or the error it raises. */
  function ErcStep(daily: Frame, solve: (Option<seq<seq<real>>>, seq<real>) -> seq<real>,
                   root: real -> real): int -> Result<(Record, Record), string>
    requires WellFormed(daily) && ErcSolver(solve) && IsSqrt(root)
  {
    y => YearRecords(daily, y, solve, root)
  }

  /** Both tables from the outcome of the year loop. */
  function Unzipped(acc: Result<seq<(Record, Record)>, string>): Result<(seq<Record>, seq<Record>), string>
  {
    match acc
    case Failure(e) => Failure(e)
    case Success(pairs) => Success((Firsts(pairs), Seconds(pairs)))
  }

  /** The result of compute_erc_weights: both tables, or the error. */
  function ErcTables(daily: Frame, solve: (Option<seq<seq<real>>>, seq<real>) -> seq<real>,
                     root: real -> real): Result<(seq<Record>, seq<Record>), string>
    requires WellFormed(daily) && ErcSolver(solve) && IsSqrt(root)
  {
    Unzipped(Accumulate(ErcStep(daily, solve, root), Years()))
  }

  /** compute_erc_weights(returns): the loop over range(2016, 2025). */
  method ComputeErcWeights(daily: Frame, solve: (Option<seq<seq<real>>>, seq<real>) -> seq<real>,
                           root: real -> real)
    returns (res: Result<(seq<Record>, seq<Record>), string>)
    requires WellFormed(daily) && ErcSolver(solve) && IsSqrt(root)
    ensures res == ErcTables(daily, solve, root)
  {
    res := ErcYearLoop(daily, Years(), solve, root);
  }

  /** The year loop of compute_erc_weights, accumulating weights_data and
      risk_contrib_data over the given years. */
  method ErcYearLoop(daily: Frame, years: seq<int>, solve: (Option<seq<seq<real>>>, seq<real>) -> seq<real>,
                     root: real -> real)
    returns (res: Result<(seq<Record>, seq<Record>), string>)
    requires WellFormed(daily) && ErcSolver(solve) && IsSqrt(root)
    ensures res == Unzipped(Accumulate(ErcStep(daily, solve, root), years))
  {
    var weightsData: seq<Record> := [];
    var riskContribData: seq<Record> := [];
    ghost var pairs: seq<(Record, Record)> := [];
    var step := ErcStep(daily, solve, root);
    var i := 0;
    while i < |years|
      invariant 0 <= i <= |years|
      invariant Accumulate(step, years[..i]) == Success(pairs)
      invariant weightsData == Firsts(pairs) && riskContribData == Seconds(pairs)
    {
      var year := years[i];
      var recs := ComputeYear(daily, year, solve, root);
      assert step(years[i]) == recs by {
        StepIsYear(daily, solve, root, year);
      }
      if recs.Failure? {
        res := Failure(recs.error);
        AccumulateAbort(step, years, i);
        return;
      }
      AccumulateSnoc(step, years, i);
      PairsSnoc(pairs, recs.value);
      weightsData := weightsData + [recs.value.0];
      riskContribData := riskContribData + [recs.value.1];
      pairs := pairs + [recs.value];
      i := i + 1;
    }
    assert years[..i] == years;
    res := Success((weightsData, riskContribData));
  }

  /** The loop's step for a year computes that year's records. */
  lemma StepIsYear(daily: Frame, solve: (Option<seq<seq<real>>>, seq<real>) -> seq<real>,
                   root: real -> real, y: int)
    requires WellFormed(daily) && ErcSolver(solve) && IsSqrt(root)
    ensures ErcStep(daily, solve, root)(y) == YearRecords(daily, y, solve, root)
  {
  }

  /** One pass of the year loop: cut the year, drop incomplete columns,
      estimate the covariance, optimise from equal weights and build both
      dictionaries. */
  method ComputeYear(daily: Frame, year: int, solve: (Option<seq<seq<real>>>, seq<real>) -> seq<real>,
                     root: real -> real)
    returns (recs: Result<(Record, Record), string>)
    requires WellFormed(daily) && ErcSolver(solve) && IsSqrt(root)
    ensures recs == YearRecords(daily, year, solve, root)
  {
    var slice := TrainingSlice(daily, year);
    var columns := Names(slice.columns);
    var initial := EqualWeights(|columns|);
    if initial.Failure? {
      return Failure(initial.error);
    }
    var covariance := YearCov(slice);
    var ercWeights := solve(covariance, initial.value);
    var fit := YearFit(columns, covariance, ercWeights);
    assert FitYear(daily, year, solve) == Success(fit);
    var weightDict := WeightRecord(year, fit);
    var riskContribDict := ContributionRecord(year, fit, root);
    recs := Success((weightDict, riskContribDict));
  }

  /** compute_erc_weights fails (ZeroDivisionError) exactly when some year
      2016..2024 has no column without a missing value; otherwise it yields
      nine weight records and nine risk-contribution records, entry k being
      year 2016 + k's pair. */
  lemma ErcTablesShape(daily: Frame, solve: (Option<seq<seq<real>>>, seq<real>) -> seq<real>,
                       root: real -> real)
    requires WellFormed(daily) && ErcSolver(solve) && IsSqrt(root)
    ensures ErcTables(daily, solve, root).Failure? <==>
            exists k :: 0 <= k < |Years()| && |TrainingSlice(daily, Years()[k]).columns| == 0
    ensures var res := ErcTables(daily, solve, root);
            res.Success? ==>
              |res.value.0| == |res.value.1| == LastYear - FirstYear + 1
              && forall k :: 0 <= k < |Years()| ==>
                   YearRecords(daily, Years()[k], solve, root).Success?
                   && res.value.0[k] == YearRecords(daily, Years()[k], solve, root).value.0
                   && res.value.1[k] == YearRecords(daily, Years()[k], solve, root).value.1
  {
    var step := ErcStep(daily, solve, root);
    var years := Years();
    AccumulateFailIff(step, years);
    forall k | 0 <= k < |years|
      ensures step(years[k]) == YearRecords(daily, years[k], solve, root)
    {
    }
    if Accumulate(step, years).Success? {
      var pairs := Accumulate(step, years).value;
      var tables := ErcTables(daily, solve, root).value;
      assert tables == (Firsts(pairs), Seconds(pairs));
      forall k | 0 <= k < |years|
        ensures YearRecords(daily, years[k], solve, root).Success?
        ensures tables.0[k] == YearRecords(daily, years[k], solve, root).value.0
        ensures tables.1[k] == YearRecords(daily, years[k], solve, root).value.1
      {
        AccumulateEntry(step, years, k);
        assert tables.0[k] == pairs[k].0 && tables.1[k] == pairs[k].1;
      }
    }
  }

  /** Distinct column names stay distinct when columns are filtered. */
  lemma {:induction false} FilterKeepsDistinct(cols: seq<Column>, keep: Column -> bool)
    requires Distinct(Names(cols))
    ensures Distinct(Names(Filter(cols, keep)))
  {
    if cols != [] {
      FilterKeepsDistinct(cols[1..], keep);
      var rest := Filter(cols[1..], keep);
      assert Names(cols[1..]) == Names(cols)[1..];
      if keep(cols[0]) {
        var f := Filter(cols, keep);
        assert f == [cols[0]] + rest;
        forall i, j | 0 <= i < j < |f| ensures Names(f)[i] != Names(f)[j] {
          if i == 0 {
            assert f[j] == rest[j - 1] && rest[j - 1] in cols[1..];
            var m :| 0 <= m < |cols[1..]| && cols[1..][m] == f[j];
            assert Names(cols)[0] != Names(cols)[m + 1];
          } else {
            assert Names(f)[i] == Names(rest)[i - 1] && Names(f)[j] == Names(rest)[j - 1];
          }
        }
      }
    }
  }

  /** The asset names of a training block: the returns' own columns that are
      complete over the year, in order and without repetition. */
  lemma TrainingNames(daily: Frame, y: int)
    requires WellFormed(daily) && Distinct(Names(daily.columns))
    ensures Distinct(Names(TrainingSlice(daily, y).columns))
    ensures forall c :: c in TrainingSlice(daily, y).columns <==> c in YearRows(daily, y).columns && Complete(c)
  {
    var yr := YearRows(daily, y);
    assert Names(yr.columns) == Names(daily.columns);
    FilterKeepsDistinct(yr.columns, Complete);
  }

  /** The names of a year's assets, as a set. */
  function NameSet(names: seq<string>): (keys: set<string>)
    ensures forall i :: 0 <= i < |names| ==> names[i] in keys
    ensures forall k :: k in keys ==> exists i :: 0 <= i < |names| && names[i] == k
  {
    set i | 0 <= i < |names| :: names[i]
  }

  /** The key sets: each year's weight record and risk-contribution record
      carry 'year' and exactly the columns without a missing value that
      year, the same keys in both. */
  lemma RecordKeys(daily: Frame, y: int, solve: (Option<seq<seq<real>>>, seq<real>) -> seq<real>,
                   root: real -> real)
    requires WellFormed(daily) && ErcSolver(solve) && IsSqrt(root)
    requires YearRecords(daily, y, solve, root).Success?
    ensures var recs := YearRecords(daily, y, solve, root).value;
            recs.0.Keys == recs.1.Keys == {"year"} + set c | c in TrainingSlice(daily, y).columns :: c.name
  {
    var cols := TrainingSlice(daily, y).columns;
    var fit := FitYear(daily, y, solve).value;
    var recs := YearRecords(daily, y, solve, root).value;
    assert recs == (WeightRecord(y, fit), ContributionRecord(y, fit, root));
    NameSetOfColumns(cols);
  }

  /** The set of a block's names is the set of its columns' names. */
  lemma NameSetOfColumns(cols: seq<Column>)
    ensures NameSet(Names(cols)) == set c | c in cols :: c.name
  {
    var names := Names(cols);
    forall c | c in cols ensures c.name in NameSet(names) {
      var i :| 0 <= i < |cols| && cols[i] == c;
      assert names[i] == c.name;
    }
  }

  /** A year's asset names are distinct when the return frame's are. */
  lemma FitNamesDistinct(daily: Frame, y: int, solve: (Option<seq<seq<real>>>, seq<real>) -> seq<real>)
    requires WellFormed(daily) && ErcSolver(solve) && Distinct(Names(daily.columns))
    requires FitYear(daily, y, solve).Success?
    ensures Distinct(FitYear(daily, y, solve).value.names)
  {
    TrainingNames(daily, y);
  }

  /** The weight record stores the optimiser's weights under the asset
      names, and the risk-contribution record holds the contributions of
      the very weights that reading the weight record back recovers. */
  lemma RecordValues(y: int, fit: YearFit, root: real -> real)
    requires FitShape(fit) && IsSqrt(root) && Distinct(fit.names) && "year" !in fit.names
    ensures forall i :: 0 <= i < |fit.names| ==> WeightRecord(y, fit)[fit.names[i]] == Some(fit.weights[i])
    ensures forall i :: 0 <= i < |fit.names| ==>
              fit.names[i] in ReadBack(WeightRecord(y, fit)) && ReadBack(WeightRecord(y, fit))[fit.names[i]] == fit.weights[i]
    ensures forall i :: 0 <= i < |fit.names| ==>
              ContributionRecord(y, fit, root)[fit.names[i]] == StoredContributions(fit.weights, fit.cov, root)[i]
    ensures WeightRecord(y, fit)["year"] == ContributionRecord(y, fit, root)["year"] == Some(y as real)
  {
    ZipLookup(y, fit.names, Present(fit.weights));
    ZipLookup(y, fit.names, StoredContributions(fit.weights, fit.cov, root));
  }

  /** With a positive portfolio variance the stored risk contributions of a
      year add up to the risk of the stored weights. */
  lemma StoredContributionsSumToRisk(w: seq<real>, cov: seq<seq<real>>, root: real -> real)
    requires IsSqrt(root) && Square(cov, |w|) && 0.0 < Quad(w, cov)
    ensures forall i :: 0 <= i < |w| ==> StoredContributions(w, Some(cov), root)[i].Some?
    ensures Sum(seq(|w|, i requires 0 <= i < |w| => StoredContributions(w, Some(cov), root)[i].value))
            == PortfolioRisk(w, cov, root).value
  {
    RiskContributionsSumToRisk(w, cov, root);
    var rc := RiskContributions(w, cov, root).value;
    var stored := StoredContributions(w, Some(cov), root);
    assert forall i :: 0 <= i < |w| ==> stored[i] == Some(rc[i]);
    assert seq(|w|, i requires 0 <= i < |w| => stored[i].value) == rc;
  }

  /** pd.DataFrame(records).iloc[k]: the table has a column per key of any
      record, and a record's row is NaN where the record has no such key. */
  function TableRow(rec: Record, keys: set<string>): (row: Record)
    requires rec.Keys <= keys
    ensures row.Keys == keys
    ensures forall k :: k in rec ==> row[k] == rec[k]
  {
    map k | k in keys :: if k in rec then rec[k] else None
  }

  /** row.drop('year').dropna().to_dict() */
  function ReadBack(row: Record): (weights: map<string, real>)
    ensures forall k :: k in weights <==> k in row && k != "year" && row[k].Some?
    ensures forall k :: k in weights ==> row[k] == Some(weights[k])
  {
    map k | k in row && k != "year" && row[k].Some? :: row[k].value
  }

  /** The backtest reads back exactly the asset weights of the year's
      record, however many other assets other years add to the table. */
  lemma ReadBackRecovers(y: int, fit: YearFit, keys: set<string>)
    requires FitShape(fit) && Distinct(fit.names) && "year" !in fit.names
    requires WeightRecord(y, fit).Keys <= keys
    ensures ReadBack(TableRow(WeightRecord(y, fit), keys)).Keys == NameSet(fit.names)
    ensures forall i :: 0 <= i < |fit.names| ==> ReadBack(TableRow(WeightRecord(y, fit), keys))[fit.names[i]] == fit.weights[i]
  {
    ZipLookup(y, fit.names, Present(fit.weights));
    var rec := WeightRecord(y, fit);
    var row := TableRow(rec, keys);
    var back := ReadBack(row);
    forall i | 0 <= i < |fit.names| ensures fit.names[i] in back && back[fit.names[i]] == fit.weights[i] {
      assert row[fit.names[i]] == rec[fit.names[i]] == Some(fit.weights[i]);
    }
    forall k | k in back ensures k in NameSet(fit.names) {
      assert k in rec && k != "year";
    }
  }
}
