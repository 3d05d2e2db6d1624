/** erc_portfolio: the ERC backtest. Each year's weights are applied to the
    following calendar year's daily returns with the drift replay. The
    weights either come from the stored weight table (one row per training
    year) or from running the optimiser inside the loop. numpy's NaN
    arithmetic is modelled explicitly: a missing return makes that day's
    portfolio return NaN and, through the drift, every later weight and
    return of the year. */
module ErcBacktest {
  import opened Wrappers
  import opened Calendar
  import opened Panel
  import opened LinAlg
  import opened Drift
  import opened RiskParity
  import opened ErcTables
  import opened PeriodLoop

  /** A row without NaN. */
  predicate RowComplete(r: seq<Cell>)
  {
    forall j :: 0 <= j < |r| ==> r[j].Some?
  }

  /** The numbers of a complete row. */
  function Values(r: seq<Cell>): (v: seq<real>)
    requires RowComplete(r)
    ensures |v| == |r| && forall j :: 0 <= j < |r| ==> r[j] == Some(v[j])
  {
    seq(|r|, j requires 0 <= j < |r| => r[j].value)
  }

  /** Rows of n cells whose present returns are all above -100%. */
  predicate CellRows(rows: seq<seq<Cell>>, n: nat)
  {
    forall t :: 0 <= t < |rows| ==>
      |rows[t]| == n && forall j :: 0 <= j < n && rows[t][j].Some? ==> -1.0 < rows[t][j].value
  }

  /** The position of the first row with a missing cell, or the number of rows. */
  function FirstGap(rows: seq<seq<Cell>>): (k: nat)
    ensures k <= |rows|
    ensures forall t :: 0 <= t < k ==> RowComplete(rows[t])
    ensures k < |rows| ==> !RowComplete(rows[k])
  {
    if rows == [] then 0
    else if !RowComplete(rows[0]) then 0
    else 1 + FirstGap(rows[1..])
  }

  /** Complete rows as numbers. */
  function DenseRows(rows: seq<seq<Cell>>): (m: seq<seq<real>>)
    requires forall t :: 0 <= t < |rows| ==> RowComplete(rows[t])
    ensures |m| == |rows| && forall t :: 0 <= t < |rows| ==> m[t] == Values(rows[t])
  {
    seq(|rows|, t requires 0 <= t < |rows| => Values(rows[t]))
  }

  /** The replayed returns of a period whose rows may hold NaN: the drift
      replay of the rows before the first gap, then NaN to the end. */
  function ReplayCellsSpec(w0: seq<real>, rows: seq<seq<Cell>>): (rets: seq<Cell>)
    requires Simplex(w0) && CellRows(rows, |w0|)
    ensures |rets| == |rows|
  {
    var k := FirstGap(rows);
    var dense := DenseRows(rows[..k]);
    assert Conforms(dense, |w0|) by {
      forall t | 0 <= t < k ensures ReturnRow(dense[t], |w0|) {
        assert rows[..k][t] == rows[t];
      }
    }
    seq(|rows|, t requires 0 <= t < |rows| => if t < k then Some(ReplaySpec(w0, dense)[t]) else None)
  }

  /** The day loop of erc_portfolio on rows that may hold NaN: record
      w . r_t, then drift the weights unless it is the last day. */
  method ReplayCells(w0: seq<real>, rows: seq<seq<Cell>>) returns (rets: seq<Cell>)
    requires Simplex(w0) && CellRows(rows, |w0|)
    ensures rets == ReplayCellsSpec(w0, rows)
  {
    ghost var k := FirstGap(rows);
    ghost var dense := DenseRows(rows[..k]);
    ghost var spec := ReplayCellsSpec(w0, rows);
    DenseConforms(w0, rows);
    var weights: Option<seq<real>> := Some(w0);
    rets := [];
    var t := 0;
    while t < |rows|
      invariant 0 <= t <= |rows| && rets == spec[..t]
      invariant t <= k && t < |rows| ==> weights == Some(DriftAll(w0, dense[..t]))
      invariant k < t < |rows| ==> weights.None?
    {
      var r := rows[t];
      assert spec[..t + 1] == spec[..t] + [spec[t]];
      if weights.Some? && RowComplete(r) {
        assert t < k;
        ReplayCellsStep(w0, rows, k, dense, t);
        var p := Dot(weights.value, Values(r));
        rets := rets + [Some(p)];
        if t < |rows| - 1 {
          weights := Some(DriftStep(weights.value, Values(r)));
        }
      } else {
        assert k <= t;
        ReplayCellsEntry(w0, rows, t);
        rets := rets + [None];
        if t < |rows| - 1 {
          weights := None;
        }
      }
      t := t + 1;
    }
  }

  /** The complete rows before the first gap form a block of return rows. */
  lemma DenseConforms(w0: seq<real>, rows: seq<seq<Cell>>)
    requires CellRows(rows, |w0|)
    ensures Conforms(DenseRows(rows[..FirstGap(rows)]), |w0|)
  {
    var k := FirstGap(rows);
    forall t | 0 <= t < k ensures ReturnRow(DenseRows(rows[..k])[t], |w0|) {
      assert rows[..k][t] == rows[t];
    }
  }

  /** A day before the first gap: its row is complete, its return is the
      drifted weights dotted with it, and the weights drift through it. */
  lemma ReplayCellsStep(w0: seq<real>, rows: seq<seq<Cell>>, k: nat, dense: seq<seq<real>>, t: nat)
    requires Simplex(w0) && CellRows(rows, |w0|)
    requires k == FirstGap(rows) && dense == DenseRows(rows[..k]) && t < k
    ensures Conforms(dense, |w0|)
    ensures RowComplete(rows[t]) && dense[t] == Values(rows[t])
    ensures ReplayCellsSpec(w0, rows)[t] == Some(Dot(DriftAll(w0, dense[..t]), Values(rows[t])))
    ensures DriftAll(w0, dense[..t + 1]) == DriftStep(DriftAll(w0, dense[..t]), Values(rows[t]))
  {
    DenseConforms(w0, rows);
    assert rows[..k][t] == rows[t];
    ReplayCellsEntry(w0, rows, t);
    ReplayEntry(w0, dense, t);
    assert dense[..t + 1][..t] == dense[..t];
  }

  /** Entry t of the replay with NaN handling. */
  lemma ReplayCellsEntry(w0: seq<real>, rows: seq<seq<Cell>>, t: nat)
    requires Simplex(w0) && CellRows(rows, |w0|) && t < |rows|
    ensures Conforms(DenseRows(rows[..FirstGap(rows)]), |w0|)
    ensures ReplayCellsSpec(w0, rows)[t]
            == if t < FirstGap(rows) then Some(ReplaySpec(w0, DenseRows(rows[..FirstGap(rows)]))[t]) else None
  {
    var k := FirstGap(rows);
    var dense := DenseRows(rows[..k]);
    forall s | 0 <= s < k ensures ReturnRow(dense[s], |w0|) {
      assert rows[..k][s] == rows[s];
    }
  }

  /** Before the first gap every replayed return is a number above -100%;
      from the gap on every return is NaN. */
  lemma ReplayCellsValues(w0: seq<real>, rows: seq<seq<Cell>>, t: nat)
    requires Simplex(w0) && CellRows(rows, |w0|) && t < |rows|
    ensures ReplayCellsSpec(w0, rows)[t].Some? <==> forall u :: 0 <= u <= t ==> RowComplete(rows[u])
    ensures ReplayCellsSpec(w0, rows)[t].Some? ==> -1.0 < ReplayCellsSpec(w0, rows)[t].value
  {
    var k := FirstGap(rows);
    var dense := DenseRows(rows[..k]);
    assert Conforms(dense, |w0|) by {
      forall s | 0 <= s < k ensures ReturnRow(dense[s], |w0|) {
        assert rows[..k][s] == rows[s];
      }
    }
    if t < k {
      PortfolioReturnAboveMinusOne(w0, dense, t);
    }
  }

  /** On complete rows the replay with NaN handling is the drift replay. */
  lemma ReplayCellsOfComplete(w0: seq<real>, rows: seq<seq<Cell>>)
    requires Simplex(w0) && CellRows(rows, |w0|)
    requires forall t :: 0 <= t < |rows| ==> RowComplete(rows[t])
    ensures Conforms(DenseRows(rows), |w0|)
    ensures forall t :: 0 <= t < |rows| ==>
              ReplayCellsSpec(w0, rows)[t] == Some(ReplaySpec(w0, DenseRows(rows))[t])
  {
    assert FirstGap(rows) == |rows|;
    assert rows[..|rows|] == rows;
  }

  /** Every present return of a frame is above -100%, as the returns of
      positive prices are. */
  predicate ReturnsFrame(f: Frame)
  {
    WellFormed(f)
    && forall c :: c in f.columns ==>
         forall t :: 0 <= t < |c.cells| && c.cells[t].Some? ==> -1.0 < c.cells[t].value
  }

  /** Selecting rows keeps a return frame. */
  lemma RowsReturns(f: Frame, idx: seq<nat>)
    requires ReturnsFrame(f)
    requires forall k :: 0 <= k < |idx| ==> idx[k] < |f.dates|
    ensures ReturnsFrame(Rows(f, idx))
  {
    var g := Rows(f, idx);
    forall c | c in g.columns
      ensures forall t :: 0 <= t < |c.cells| && c.cells[t].Some? ==> -1.0 < c.cells[t].value
    {
      var j :| 0 <= j < |g.columns| && g.columns[j] == c;
      assert f.columns[j] in f.columns;
      forall t | 0 <= t < |c.cells| && c.cells[t].Some? ensures -1.0 < c.cells[t].value {
        assert c.cells[t] == f.columns[j].cells[idx[t]];
      }
    }
  }

  lemma YearRowsReturns(f: Frame, y: int)
    requires ReturnsFrame(f)
    ensures ReturnsFrame(YearRows(f, y))
  {
    RowsReturns(f, Where(f.dates, InYear(y)));
  }

  /** The cell rows of a frame (df.iloc[t] for every t). */
  function CellRowsOf(f: Frame): (rows: seq<seq<Cell>>)
    requires WellFormed(f)
    ensures |rows| == |f.dates|
    ensures forall t :: 0 <= t < |rows| ==> rows[t] == RowAt(f, t)
  {
    seq(|f.dates|, t requires 0 <= t < |f.dates| => RowAt(f, t))
  }

  lemma CellRowsOfReturns(f: Frame)
    requires ReturnsFrame(f)
    ensures CellRows(CellRowsOf(f), |f.columns|)
  {
    forall t, j | 0 <= t < |f.dates| && 0 <= j < |f.columns| && CellRowsOf(f)[t][j].Some?
      ensures -1.0 < CellRowsOf(f)[t][j].value
    {
      assert f.columns[j] in f.columns;
    }
  }

  /** The drift replay of the weights w0 over the rows of a return frame,
      one return per row, NaN from the first row with a missing return on. */
  function FrameReplay(w0: seq<real>, f: Frame): (rets: seq<Cell>)
    requires ReturnsFrame(f) && Simplex(w0) && |w0| == |f.columns|
    ensures |rets| == |f.dates|
  {
    CellRowsOfReturns(f);
    ReplayCellsSpec(w0, CellRowsOf(f))
  }

  /** df[df.columns.intersection(names)]: the columns of f whose name is
      one of names, in f's own column order. */
  function Available(f: Frame, names: set<string>): (g: Frame)
    requires WellFormed(f)
    ensures WellFormed(g) && g.dates == f.dates
    ensures forall c :: c in g.columns <==> c in f.columns && c.name in names
  {
    Frame(f.dates, Filter(f.columns, NameIn(names)))
  }

  /** The test of a column's name against a set of names. */
  function NameIn(names: set<string>): Column -> bool
  {
    (c: Column) => c.name in names
  }

  lemma AvailableReturns(f: Frame, names: set<string>)
    requires ReturnsFrame(f)
    ensures ReturnsFrame(Available(f, names))
  {
  }

  /** np.array([weight_dict[col] for col in available_columns]) */
  function WeightsFor(cols: seq<Column>, weights: map<string, real>): (w: seq<real>)
    requires forall j :: 0 <= j < |cols| ==> cols[j].name in weights
    ensures |w| == |cols| && forall j :: 0 <= j < |cols| ==> w[j] == weights[cols[j].name]
  {
    seq(|cols|, j requires 0 <= j < |cols| => weights[cols[j].name])
  }

  /** int(x) for a float: truncation toward zero. */
  function Truncate(x: real): (n: int)
    ensures 0.0 <= x ==> n == x.Floor
    ensures x < 0.0 ==> n == -((-x).Floor)
  {
    if 0.0 <= x then x.Floor else -((-x).Floor)
  }

  /** A stored weight row: a year and only non-negative weights, as the
      optimiser's bounds leave them. */
  predicate StoredRow(row: Record)
  {
    "year" in row && row["year"].Some?
    && forall k :: k in ReadBack(row) ==> 0.0 <= ReadBack(row)[k]
  }

  /** The year a stored row was trained on: int(row['year']). */
  function RowYear(row: Record): int
    requires StoredRow(row)
  {
    Truncate(row["year"].value)
  }

  /** The returns of year + 1 restricted to the assets of a stored row. */
  function ExPost(daily: Frame, row: Record): (g: Frame)
    requires WellFormed(daily) && StoredRow(row)
    ensures WellFormed(g)
    ensures ReturnsFrame(daily) ==> ReturnsFrame(g)
  {
    var g := Available(YearRows(daily, RowYear(row) + 1), ReadBack(row).Keys);
    if ReturnsFrame(daily) then YearRowsReturns(daily, RowYear(row) + 1); g else g
  }

  /** The daily returns the file-driven erc_portfolio produces for one
      stored row. With no asset left every day earns np.dot([], []) == 0.0;
      with weights summing to zero the division makes every weight NaN;
      otherwise the weights are renormalised and replayed. */
  function StoredRowReturns(daily: Frame, row: Record): (rets: seq<Cell>)
    requires ReturnsFrame(daily) && StoredRow(row)
    ensures |rets| == |YearRows(daily, RowYear(row) + 1).dates|
  {
    var expost := ExPost(daily, row);
    var w := StoredWeights(daily, row);
    if |w| == 0 then seq(|expost.dates|, t requires 0 <= t < |expost.dates| => Some(0.0))
    else if Sum(w) == 0.0 then seq(|expost.dates|, t requires 0 <= t < |expost.dates| => None)
    else FrameReplay(Normalize(w), expost)
  }

  /** The three outcomes of a stored row: with no asset left every day
      earns 0; with weights summing to zero every day is NaN; otherwise the
      days earn the drift replay of the renormalised weights over the
      following year's returns of the row's assets. */
  lemma StoredRowReturnsCases(daily: Frame, row: Record)
    requires ReturnsFrame(daily) && StoredRow(row)
    ensures var rets := StoredRowReturns(daily, row);
            var w := StoredWeights(daily, row);
            (|w| == 0 ==> forall t :: 0 <= t < |rets| ==> rets[t] == Some(0.0))
            && (|w| != 0 && Sum(w) == 0.0 ==> forall t :: 0 <= t < |rets| ==> rets[t].None?)
            && (|w| != 0 && Sum(w) != 0.0 ==> rets == FrameReplay(Normalize(w), ExPost(daily, row)))
  {
  }

  /** The stored weights of the row's assets that trade in the following
      year, in the return columns' order; all non-negative. */
  function StoredWeights(daily: Frame, row: Record): (w: seq<real>)
    requires WellFormed(daily) && StoredRow(row)
    ensures |w| == |ExPost(daily, row).columns|
    ensures forall j :: 0 <= j < |w| ==> w[j] == ReadBack(row)[ExPost(daily, row).columns[j].name] && 0.0 <= w[j]
    ensures Sum(w) != 0.0 ==> 0.0 < Sum(w) && Simplex(Normalize(w))
  {
    var expost := ExPost(daily, row);
    assert forall j :: 0 <= j < |expost.columns| ==> expost.columns[j] in expost.columns;
    var w := WeightsFor(expost.columns, ReadBack(row));
    if Sum(w) != 0.0 then StoredWeightsNormalize(w); w else w
  }

  /** Stored non-negative weights with a nonzero sum renormalise to a
      long-only, fully invested portfolio. */
  lemma StoredWeightsNormalize(w: seq<real>)
    requires forall j :: 0 <= j < |w| ==> 0.0 <= w[j]
    requires Sum(w) != 0.0
    ensures 0.0 < Sum(w) && Simplex(Normalize(w))
  {
    SumNonNegative(w);
    NormalizeSimplex(w);
  }

  /** The body of the file-driven loop for one stored row. */
  method BacktestStoredRow(daily: Frame, row: Record) returns (yearReturns: seq<Cell>)
    requires ReturnsFrame(daily) && StoredRow(row)
    ensures yearReturns == StoredRowReturns(daily, row)
  {
    var year := RowYear(row);
    var weightDict := ReadBack(row);
    var expost := Available(YearRows(daily, year + 1), weightDict.Keys);
    var weights := WeightsFor(expost.columns, weightDict);
    assert expost == ExPost(daily, row);
    if |weights| == 0 {
      yearReturns := seq(|expost.dates|, t requires 0 <= t < |expost.dates| => Some(0.0));
    } else if Sum(weights) == 0.0 {
      yearReturns := seq(|expost.dates|, t requires 0 <= t < |expost.dates| => None);
    } else {
      YearRowsReturns(daily, year + 1);
      CellRowsOfReturns(expost);
      StoredWeightsNormalize(weights);
      yearReturns := ReplayCells(Normalize(weights), CellRowsOf(expost));
    }
  }

  /** erc_portfolio(returns, weights_file): one list of daily returns per
      stored weight row, in the table's order. */
  method ErcPortfolio(daily: Frame, table: seq<Record>) returns (byYear: seq<seq<Cell>>)
    requires ReturnsFrame(daily)
    requires forall k :: 0 <= k < |table| ==> StoredRow(table[k])
    ensures |byYear| == |table|
    ensures forall k :: 0 <= k < |table| ==> byYear[k] == StoredRowReturns(daily, table[k])
  {
    byYear := [];
    var idx := 0;
    while idx < |table|
      invariant 0 <= idx <= |table| && |byYear| == idx
      invariant forall k :: 0 <= k < idx ==> byYear[k] == StoredRowReturns(daily, table[k])
    {
      var yearReturns := BacktestStoredRow(daily, table[idx]);
      byYear := byYear + [yearReturns];
      idx := idx + 1;
    }
  }

  /** Each list has one entry per trading day of the year after the row's
      training year; each day before the first missing return earns the
      drifted weights dotted with that day's returns, a number above -100%. */
  lemma StoredRowReturnsShape(daily: Frame, row: Record, t: nat)
    requires ReturnsFrame(daily) && StoredRow(row)
    requires t < |YearRows(daily, RowYear(row) + 1).dates|
    ensures var rets := StoredRowReturns(daily, row);
            rets[t].Some? ==> -1.0 < rets[t].value || WeightsFor(ExPost(daily, row).columns, ReadBack(row)) == []
  {
    var expost := ExPost(daily, row);
    var w := WeightsFor(expost.columns, ReadBack(row));
    if |w| != 0 && Sum(w) != 0.0 {
      YearRowsReturns(daily, RowYear(row) + 1);
      CellRowsOfReturns(expost);
      StoredWeightsNormalize(w);
      ReplayCellsValues(Normalize(w), CellRowsOf(expost), t);
    }
  }

  lemma NamesConcat(x: seq<Column>, y: seq<Column>)
    ensures Names(x + y) == Names(x) + Names(y)
  {
    assert forall j :: 0 <= j < |x + y| ==> Names(x + y)[j] == (Names(x) + Names(y))[j];
  }

  /** Selecting columns by a set of names that holds exactly the names of
      the columns of a meeting p gives, on columns b with the same names as
      a, the names of the columns of a meeting p, in the same order. */
  lemma {:induction false} FilterByNames(a: seq<Column>, b: seq<Column>, p: Column -> bool, names: set<string>)
    requires Names(a) == Names(b)
    requires forall i :: 0 <= i < |a| ==> (a[i].name in names <==> p(a[i]))
    ensures Names(Filter(b, NameIn(names))) == Names(Filter(a, p))
  {
    assert |a| == |Names(a)| == |Names(b)| == |b|;
    if a != [] {
      assert a[0].name == Names(a)[0] == Names(b)[0] == b[0].name;
      assert Names(a[1..]) == Names(a)[1..] && Names(b[1..]) == Names(b)[1..];
      FilterByNames(a[1..], b[1..], p, names);
      var headA := if p(a[0]) then [a[0]] else [];
      var headB := if NameIn(names)(b[0]) then [b[0]] else [];
      assert Filter(a, p) == headA + Filter(a[1..], p);
      assert Filter(b, NameIn(names)) == headB + Filter(b[1..], NameIn(names));
      NamesConcat(headA, Filter(a[1..], p));
      NamesConcat(headB, Filter(b[1..], NameIn(names)));
      assert Names(headA) == Names(headB);
    }
  }

  /** With distinct names, a column's name is among the names of the
      columns meeting p exactly when it meets p itself. */
  lemma SelectedName(a: seq<Column>, p: Column -> bool, i: int)
    requires Distinct(Names(a)) && 0 <= i < |a|
    ensures a[i].name in NameSet(Names(Filter(a, p))) <==> p(a[i])
  {
    if p(a[i]) {
      SelectedIf(a, p, i);
    }
    if a[i].name in NameSet(Names(Filter(a, p))) {
      SelectedOnlyIf(a, p, i);
    }
  }

  lemma SelectedIf(a: seq<Column>, p: Column -> bool, i: int)
    requires 0 <= i < |a| && p(a[i])
    ensures a[i].name in NameSet(Names(Filter(a, p)))
  {
    MemberNamed(Filter(a, p), a[i]);
  }

  lemma MemberNamed(f: seq<Column>, c: Column)
    requires c in f
    ensures c.name in NameSet(Names(f))
  {
    var j :| 0 <= j < |f| && f[j] == c;
    assert Names(f)[j] == c.name;
  }

  lemma SelectedOnlyIf(a: seq<Column>, p: Column -> bool, i: int)
    requires Distinct(Names(a)) && 0 <= i < |a|
    requires a[i].name in NameSet(Names(Filter(a, p)))
    ensures p(a[i])
  {
    var c := NamedMember(Filter(a, p), a[i].name);
    InFilter(a, p, c);
    var m := IndexOf(a, c);
    SameName(a, i, m);
  }

  lemma NamedMember(f: seq<Column>, name: string) returns (c: Column)
    requires name in NameSet(Names(f))
    ensures c in f && c.name == name
  {
    var nf := Names(f);
    var j :| 0 <= j < |nf| && nf[j] == name;
    c := f[j];
  }

  lemma SameName(a: seq<Column>, i: int, m: int)
    requires Distinct(Names(a)) && 0 <= i < |a| && 0 <= m < |a|
    requires a[m].name == a[i].name
    ensures m == i
  {
    var na := Names(a);
    assert na[m] == na[i];
  }

  lemma InFilter(a: seq<Column>, p: Column -> bool, c: Column)
    requires c in Filter(a, p)
    ensures c in a && p(c)
  {
  }

  lemma IndexOf(a: seq<Column>, c: Column) returns (m: int)
    requires c in a
    ensures 0 <= m < |a| && a[m] == c
  {
    m :| 0 <= m < |a| && a[m] == c;
  }

  /** In the in-loop erc_portfolio the columns of the following year that
      intersect the training columns are the training columns themselves,
      in the same order: the weights line up with the return columns. */
  lemma TrainedColumnsAlign(daily: Frame, y: int, solve: (Option<seq<seq<real>>>, seq<real>) -> seq<real>)
    requires WellFormed(daily) && ErcSolver(solve) && Distinct(Names(daily.columns))
    requires FitYear(daily, y, solve).Success?
    ensures Names(Available(YearRows(daily, y + 1), NameSet(FitYear(daily, y, solve).value.names)).columns)
            == FitYear(daily, y, solve).value.names
  {
    var a := YearRows(daily, y).columns;
    var b := YearRows(daily, y + 1).columns;
    var names := FitYear(daily, y, solve).value.names;
    assert names == Names(Filter(a, Complete));
    forall i | 0 <= i < |a| ensures a[i].name in NameSet(names) <==> Complete(a[i]) {
      SelectedName(a, Complete, i);
    }
    FilterByNames(a, b, Complete, NameSet(names));
  }

  /** One year of the in-loop erc_portfolio: optimise on year y, then replay
      the optimiser's weights over year y + 1 on the training columns. */
  function InLoopYear(daily: Frame, y: int, solve: (Option<seq<seq<real>>>, seq<real>) -> seq<real>)
    : (rets: Result<seq<Cell>, string>)
    requires ReturnsFrame(daily) && ErcSolver(solve) && Distinct(Names(daily.columns))
    ensures rets.Success? <==> 0 < |TrainingSlice(daily, y).columns|
    ensures rets.Success? ==> |rets.value| == |YearRows(daily, y + 1).dates|
    ensures rets.Success? ==>
              FitYear(daily, y, solve).Success?
              && rets.value == FrameReplay(FitYear(daily, y, solve).value.weights, TrainedExPost(daily, y, solve))
  {
    match FitYear(daily, y, solve)
    case Failure(e) => Failure(e)
    case Success(fit) => Success(FrameReplay(fit.weights, TrainedExPost(daily, y, solve)))
  }

  /** The returns of year y + 1 on year y's training columns: the same
      columns in the same order, so that the fitted weights line up. */
  function TrainedExPost(daily: Frame, y: int, solve: (Option<seq<seq<real>>>, seq<real>) -> seq<real>)
    : (g: Frame)
    requires ReturnsFrame(daily) && ErcSolver(solve) && Distinct(Names(daily.columns))
    requires FitYear(daily, y, solve).Success?
    ensures ReturnsFrame(g) && g.dates == YearRows(daily, y + 1).dates
    ensures Names(g.columns) == FitYear(daily, y, solve).value.names
    ensures |g.columns| == |FitYear(daily, y, solve).value.weights|
  {
    TrainedColumnsAlign(daily, y, solve);
    YearRowsReturns(daily, y + 1);
    Available(YearRows(daily, y + 1), NameSet(FitYear(daily, y, solve).value.names))
  }

  function InLoopStep(daily: Frame, solve: (Option<seq<seq<real>>>, seq<real>) -> seq<real>)
    : int -> Result<seq<Cell>, string>
    requires ReturnsFrame(daily) && ErcSolver(solve) && Distinct(Names(daily.columns))
  {
    y => InLoopYear(daily, y, solve)
  }

  lemma InLoopStepIsYear(daily: Frame, solve: (Option<seq<seq<real>>>, seq<real>) -> seq<real>, y: int)
    requires ReturnsFrame(daily) && ErcSolver(solve) && Distinct(Names(daily.columns))
    ensures InLoopStep(daily, solve)(y) == InLoopYear(daily, y, solve)
  {
  }

  /** The body of the in-loop year loop. */
  method InLoopYearBody(daily: Frame, year: int, solve: (Option<seq<seq<real>>>, seq<real>) -> seq<real>)
    returns (yearReturns: Result<seq<Cell>, string>)
    requires ReturnsFrame(daily) && ErcSolver(solve) && Distinct(Names(daily.columns))
    ensures yearReturns == InLoopYear(daily, year, solve)
  {
    var slice := TrainingSlice(daily, year);
    var columns := Names(slice.columns);
    var initial := EqualWeights(|columns|);
    if initial.Failure? {
      return Failure(initial.error);
    }
    var covariance := YearCov(slice);
    var ercWeights := solve(covariance, initial.value);
    assert FitYear(daily, year, solve) == Success(YearFit(columns, covariance, ercWeights));
    var expost := Available(YearRows(daily, year + 1), NameSet(columns));
    TrainedColumnsAlign(daily, year, solve);
    YearRowsReturns(daily, year + 1);
    CellRowsOfReturns(expost);
    var rets := ReplayCells(ercWeights, CellRowsOf(expost));
    yearReturns := Success(rets);
  }

  /** erc_portfolio(returns) with the optimiser inside the loop: one list of
      daily returns per training year 2016..2024, or the ZeroDivisionError
      of a year without a complete column. */
  method ErcPortfolioInLoop(daily: Frame, solve: (Option<seq<seq<real>>>, seq<real>) -> seq<real>)
    returns (res: Result<seq<seq<Cell>>, string>)
    requires ReturnsFrame(daily) && ErcSolver(solve) && Distinct(Names(daily.columns))
    ensures res == Accumulate(InLoopStep(daily, solve), Years())
  {
    res := InLoopYears(daily, Years(), solve);
  }

  method InLoopYears(daily: Frame, years: seq<int>, solve: (Option<seq<seq<real>>>, seq<real>) -> seq<real>)
    returns (res: Result<seq<seq<Cell>>, string>)
    requires ReturnsFrame(daily) && ErcSolver(solve) && Distinct(Names(daily.columns))
    ensures res == Accumulate(InLoopStep(daily, solve), years)
  {
    var byYear: seq<seq<Cell>> := [];
    var step := InLoopStep(daily, solve);
    var i := 0;
    while i < |years|
      invariant 0 <= i <= |years|
      invariant Accumulate(step, years[..i]) == Success(byYear)
    {
      var yearReturns := InLoopYearBody(daily, years[i], solve);
      InLoopStepIsYear(daily, solve, years[i]);
      if yearReturns.Failure? {
        res := Failure(yearReturns.error);
        AccumulateAbort(step, years, i);
        return;
      }
      AccumulateSnoc(step, years, i);
      byYear := byYear + [yearReturns.value];
      i := i + 1;
    }
    assert years[..i] == years;
    res := Success(byYear);
  }

  /** Nine result lists, one per training year, list k holding one return
      per trading day of year 2016 + k + 1; or the error of the first year
      without a complete column. */
  lemma InLoopShape(daily: Frame, solve: (Option<seq<seq<real>>>, seq<real>) -> seq<real>)
    requires ReturnsFrame(daily) && ErcSolver(solve) && Distinct(Names(daily.columns))
    ensures var res := Accumulate(InLoopStep(daily, solve), Years());
            (res.Failure? <==> exists k :: 0 <= k < |Years()| && |TrainingSlice(daily, Years()[k]).columns| == 0)
            && (res.Success? ==>
                  |res.value| == LastYear - FirstYear + 1
                  && forall k :: 0 <= k < |Years()| ==> |res.value[k]| == |YearRows(daily, Years()[k] + 1).dates|)
  {
    var step := InLoopStep(daily, solve);
    var years := Years();
    AccumulateFailIff(step, years);
    forall k | 0 <= k < |years| ensures step(years[k]) == InLoopYear(daily, years[k], solve) {
      InLoopStepIsYear(daily, solve, years[k]);
    }
    if Accumulate(step, years).Success? {
      forall k | 0 <= k < |years| ensures Accumulate(step, years).value[k] == step(years[k]).value {
        AccumulateEntry(step, years, k);
      }
    }
  }
}
