/** The performance figures of erc_performance and bonds_performance: the
    flattened daily return series from a start year on, its annualised mean
    (252 trading days), the Sharpe ratio against a 1.5% risk-free rate and
    the compounded cumulative return. */
module Performance {
  import opened Wrappers
  import opened Calendar
  import opened LinAlg
  import opened Panel
  import opened Drift

  const TradingDaysPerYear: real := 252.0
  const RiskFreeRate: real := 0.015

  /** One dated daily return of the 'Daily Returns' column; None is NaN. */
  type Observation = (Date, Cell)

  /** [item for sublist in xss for item in sublist] */
  function Flatten<T>(xss: seq<seq<T>>): (xs: seq<T>)
  {
    if xss == [] then [] else xss[0] + Flatten(xss[1..])
  }

  /** The number of entries in the first k lists. */
  function Offset<T>(xss: seq<seq<T>>, k: nat): nat
    requires k <= |xss|
  {
    if k == 0 then 0 else Offset(xss, k - 1) + |xss[k - 1]|
  }

  /** The flattened list has every list's entries, one list after the other:
      entry i of list k sits at the position after all earlier lists. */
  lemma {:induction false} FlattenEntry<T>(xss: seq<seq<T>>, k: nat, i: nat)
    requires k < |xss| && i < |xss[k]|
    ensures Offset(xss, k) + i < |Flatten(xss)|
    ensures Flatten(xss)[Offset(xss, k) + i] == xss[k][i]
  {
    FlattenLength(xss);
    OffsetBelow(xss, k);
    if k == 0 {
      assert Flatten(xss) == xss[0] + Flatten(xss[1..]);
    } else {
      FlattenEntry(xss[1..], k - 1, i);
      OffsetOfTail(xss, k);
      assert Flatten(xss) == xss[0] + Flatten(xss[1..]);
    }
  }

  /** The flattened list is as long as all the lists together. */
  lemma {:induction false} FlattenLength<T>(xss: seq<seq<T>>)
    ensures |Flatten(xss)| == Offset(xss, |xss|)
  {
    if xss != [] {
      FlattenLength(xss[1..]);
      OffsetOfTail(xss, |xss|);
    }
  }

  lemma {:induction false} OffsetOfTail<T>(xss: seq<seq<T>>, k: nat)
    requires 0 < k <= |xss|
    ensures Offset(xss, k) == |xss[0]| + Offset(xss[1..], k - 1)
  {
    if k > 1 {
      OffsetOfTail(xss, k - 1);
    }
  }

  lemma {:induction false} OffsetBelow<T>(xss: seq<seq<T>>, k: nat)
    requires k < |xss|
    ensures Offset(xss, k) + |xss[k]| <= Offset(xss, |xss|)
    decreases |xss| - k
  {
    if k + 1 < |xss| {
      OffsetBelow(xss, k + 1);
    }
  }

  /** The test d.year >= y of a date. */
  function FromYear(y: int): Date -> bool
  {
    (d: Date) => d.year >= y
  }

  /** The dates of the returns from the year after the first row's on. */
  function AfterFirstYear(dates: seq<Date>): (idx: seq<nat>)
    requires 0 < |dates|
  {
    Where(dates, FromYear(dates[0].year + 1))
  }

  /** The observation is from startyear or later. */
  function Since(startyear: int): Observation -> bool
  {
    (o: Observation) => o.0.year >= startyear
  }

  /** The flattened backtest returns, entry k dated by the k-th date after
      the first year of returns. */
  function Dated(portreturns: seq<seq<Cell>>, dates: seq<Date>): (obs: seq<Observation>)
    requires 0 < |dates| && |Flatten(portreturns)| == |AfterFirstYear(dates)|
    ensures |obs| == |AfterFirstYear(dates)|
    ensures forall k :: 0 <= k < |obs| ==>
              obs[k] == (dates[AfterFirstYear(dates)[k]], Flatten(portreturns)[k])
  {
    var idx := AfterFirstYear(dates);
    var flat := Flatten(portreturns);
    seq(|idx|, k requires 0 <= k < |idx| => (dates[idx[k]], flat[k]))
  }

  /** The flattened backtest returns indexed by the dates after the first
      year of returns, then cut to the years from startyear on: an
      IndexError without returns rows, a length mismatch when the lists do
      not hold one entry per such date. The kept observations are the dated
      ones from startyear on, in their order, each once. */
  function ErcSeries(portreturns: seq<seq<Cell>>, dates: seq<Date>, startyear: int)
    : (r: Result<seq<Observation>, string>)
    ensures r.Success? <==> 0 < |dates| && |Flatten(portreturns)| == |AfterFirstYear(dates)|
    ensures r.Success? ==> forall o :: o in r.value <==>
              (startyear <= o.0.year
               && exists k :: 0 <= k < |AfterFirstYear(dates)|
                              && o == (dates[AfterFirstYear(dates)[k]], Flatten(portreturns)[k]))
    ensures r.Success? ==>
              var obs := Dated(portreturns, dates);
              var idx := Positions(obs, Since(startyear));
              |r.value| == |idx| && forall k :: 0 <= k < |idx| ==> r.value[k] == obs[idx[k]]
  {
    if dates == [] then Failure("IndexError: index 0 is out of bounds")
    else
      var idx := AfterFirstYear(dates);
      var flat := Flatten(portreturns);
      if |flat| != |idx| then Failure("ValueError: Length mismatch")
      else
        var indexed := Dated(portreturns, dates);
        IndexedMembers(indexed, dates, idx, flat);
        FilterPositions(indexed, Since(startyear));
        Success(Filter(indexed, Since(startyear)))
  }

  lemma IndexedMembers(obs: seq<Observation>, dates: seq<Date>, idx: seq<nat>, flat: seq<Cell>)
    requires |obs| == |idx| == |flat|
    requires forall k :: 0 <= k < |idx| ==> idx[k] < |dates|
    requires forall k :: 0 <= k < |idx| ==> obs[k] == (dates[idx[k]], flat[k])
    ensures forall o :: o in obs <==> exists k :: 0 <= k < |idx| && o == (dates[idx[k]], flat[k])
  {
    forall o | o in obs ensures exists k :: 0 <= k < |idx| && o == (dates[idx[k]], flat[k]) {
      var k :| 0 <= k < |obs| && obs[k] == o;
    }
  }

  /** The present values of a column (pandas' skipna). */
  function Observed(cells: seq<Cell>): (xs: seq<real>)
    ensures |xs| <= |cells|
  {
    if cells == [] then []
    else (if cells[0].Some? then [cells[0].value] else []) + Observed(cells[1..])
  }

  /** Series.mean(): the mean of the present values, NaN when there is none. */
  function SkipNaMean(cells: seq<Cell>): (m: Cell)
    ensures m.Some? <==> Observed(cells) != []
    ensures m.Some? ==> m.value * (|Observed(cells)| as real) == Sum(Observed(cells))
  {
    var xs := Observed(cells);
    if xs == [] then None else Some(Sum(xs) / (|xs| as real))
  }

  /** The four performance figures. */
  datatype Figures = Figures(annualMean: Cell, annualVolatility: Cell, sharpe: Cell, cumulative: real)

  /** The figures of one 'Daily Returns' column. The sample standard
      deviation times the square root of 252 is given as volatility. */
  function Aggregates(cells: seq<Cell>, volatility: seq<Cell> -> Cell): (f: Figures)
    ensures f.annualVolatility == volatility(cells)
    ensures f.annualMean.Some? <==> Observed(cells) != []
    ensures f.annualMean.Some? ==>
              f.annualMean.value * (|Observed(cells)| as real) == TradingDaysPerYear * Sum(Observed(cells))
    ensures f.sharpe.Some? <==>
              f.annualMean.Some? && f.annualVolatility.Some? && f.annualVolatility.value != 0.0
    ensures f.sharpe.Some? ==>
              f.sharpe.value * f.annualVolatility.value == f.annualMean.value - RiskFreeRate
    ensures f.cumulative == Cumulative(cells)
  {
    var mean := SkipNaMean(cells);
    var annualMean := if mean.Some? then Some(mean.value * TradingDaysPerYear) else None;
    var vol := volatility(cells);
    var sharpe :=
      if annualMean.Some? && vol.Some? && vol.value != 0.0
      then Some((annualMean.value - RiskFreeRate) / vol.value)
      else None;
    Figures(annualMean, vol, sharpe, Cumulative(cells))
  }

  /** (1 + returns).prod() - 1, NaN days skipped. */
  function Cumulative(cells: seq<Cell>): (c: real)
    ensures c + 1.0 == Gross(Observed(cells))
  {
    Gross(Observed(cells)) - 1.0
  }

  /** erc_performance(portreturns, returns, startyear) */
  function ErcPerformance(portreturns: seq<seq<Cell>>, dates: seq<Date>, startyear: int,
                          volatility: seq<Cell> -> Cell)
    : (r: Result<(seq<Observation>, Figures), string>)
    ensures r.Success? <==> ErcSeries(portreturns, dates, startyear).Success?
    ensures r.Success? ==> r.value.0 == ErcSeries(portreturns, dates, startyear).value
                           && r.value.1 == Aggregates(Seconds(r.value.0), volatility)
  {
    match ErcSeries(portreturns, dates, startyear)
    case Failure(e) => Failure(e)
    case Success(obs) => Success((obs, Aggregates(Seconds(obs), volatility)))
  }

  /** With a positive volatility the Sharpe ratio is positive exactly when
      the annualised mean beats the risk-free rate. */
  lemma SharpeSign(cells: seq<Cell>, volatility: seq<Cell> -> Cell)
    requires Observed(cells) != []
    requires volatility(cells).Some? && 0.0 < volatility(cells).value
    ensures var f := Aggregates(cells, volatility);
            f.sharpe.Some? && (0.0 < f.sharpe.value <==> RiskFreeRate < f.annualMean.value)
  {
    var f := Aggregates(cells, volatility);
    var s, v := f.sharpe.value, f.annualVolatility.value;
    if 0.0 < s {
      PositiveProduct(s, v);
    } else {
      NonPositiveProduct(s, v);
    }
  }

  lemma PositiveProduct(s: real, v: real)
    requires 0.0 < s && 0.0 < v
    ensures 0.0 < s * v
  {
  }

  lemma NonPositiveProduct(s: real, v: real)
    requires s <= 0.0 && 0.0 < v
    ensures s * v <= 0.0
  {
  }

  /** Skipping NaN commutes with concatenation. */
  lemma {:induction false} ObservedAppend(a: seq<Cell>, b: seq<Cell>)
    ensures Observed(a + b) == Observed(a) + Observed(b)
  {
    if a != [] {
      assert (a + b)[1..] == a[1..] + b;
      ObservedAppend(a[1..], b);
    } else {
      assert a + b == b;
    }
  }

  /** A column without NaN keeps all its values. */
  lemma {:induction false} ObservedPresent(xs: seq<real>)
    ensures Observed(Present(xs)) == xs
  {
    if xs != [] {
      assert Present(xs)[1..] == Present(xs[1..]);
      ObservedPresent(xs[1..]);
    }
  }

  /** Cumulative returns of two consecutive stretches compound:
      1 + C(a ++ b) = (1 + C(a)) (1 + C(b)). */
  lemma CumulativeAppend(a: seq<Cell>, b: seq<Cell>)
    ensures Cumulative(a + b) + 1.0 == (Cumulative(a) + 1.0) * (Cumulative(b) + 1.0)
  {
    ObservedAppend(a, b);
    GrossAppend(Observed(a), Observed(b));
  }

  /** The cumulative return of one drift-rebalanced period is the growth of
      the buy-and-hold holdings it started with: Sum(holdings) - 1. */
  lemma CumulativeOfReplay(w0: seq<real>, rows: seq<seq<real>>)
    requires Simplex(w0) && Conforms(rows, |w0|)
    ensures Cumulative(Present(ReplaySpec(w0, rows))) == Sum(Holdings(w0, rows)) - 1.0
  {
    ObservedPresent(ReplaySpec(w0, rows));
    ReplayCompoundsToHoldings(w0, rows);
  }

  /** DataFrame.rename(columns={'AGG': 'Daily Returns'}) */
  function RenameAgg(cols: seq<Column>): (r: seq<Column>)
    ensures |r| == |cols|
    ensures forall j :: 0 <= j < |cols| ==>
              r[j].cells == cols[j].cells
              && r[j].name == (if cols[j].name == "AGG" then "Daily Returns" else cols[j].name)
  {
    seq(|cols|, j requires 0 <= j < |cols| =>
      if cols[j].name == "AGG" then Column("Daily Returns", cols[j].cells) else cols[j])
  }

  /** The position of the first column with the given name. */
  function Lookup(cols: seq<Column>, name: string): (j: Option<nat>)
    ensures j.Some? ==> j.value < |cols| && cols[j.value].name == name
                        && forall i :: 0 <= i < j.value ==> cols[i].name != name
    ensures j.None? ==> forall i :: 0 <= i < |cols| ==> cols[i].name != name
  {
    if cols == [] then None
    else if cols[0].name == name then Some(0)
    else match Lookup(cols[1..], name)
      case None => None
      case Some(i) => Some(i + 1)
  }

  /** The bond returns renamed and restricted to the years from startyear
      on: the rows dated startyear or later, in order, with their cells, and
      'AGG' renamed to 'Daily Returns'. */
  function BondsFrom(bonds: Frame, startyear: int): (g: Frame)
    requires WellFormed(bonds)
    ensures WellFormed(g)
    ensures forall t :: 0 <= t < |g.dates| ==> startyear <= g.dates[t].year
    ensures var idx := Where(bonds.dates, FromYear(startyear));
            |g.dates| == |idx| && |g.columns| == |bonds.columns|
            && (forall k :: 0 <= k < |idx| ==> g.dates[k] == bonds.dates[idx[k]])
            && (forall j :: 0 <= j < |bonds.columns| ==>
                  g.columns[j].name == (if bonds.columns[j].name == "AGG" then "Daily Returns"
                                        else bonds.columns[j].name))
            && (forall j, k :: 0 <= j < |bonds.columns| && 0 <= k < |idx| ==>
                  g.columns[j].cells[k] == bonds.columns[j].cells[idx[k]])
    ensures Lookup(g.columns, "Daily Returns").Some? <==>
              exists j :: 0 <= j < |bonds.columns|
                          && (bonds.columns[j].name == "AGG" || bonds.columns[j].name == "Daily Returns")
  {
    var renamed := Frame(bonds.dates, RenameAgg(bonds.columns));
    var g := Rows(renamed, Where(bonds.dates, FromYear(startyear)));
    assert forall j :: 0 <= j < |bonds.columns| ==> Names(g.columns)[j] == Names(renamed.columns)[j];
    g
  }

  /** bonds_performance(bonds_returns, startyear): the bond returns renamed,
      restricted to the years from startyear on, and the figures of their
      'Daily Returns' column; a KeyError when there is no such column. */
  function BondsPerformance(bonds: Frame, startyear: int, volatility: seq<Cell> -> Cell)
    : (r: Result<(Frame, Figures), string>)
    requires WellFormed(bonds)
    ensures r.Success? <==>
              exists j :: 0 <= j < |bonds.columns|
                          && (bonds.columns[j].name == "AGG" || bonds.columns[j].name == "Daily Returns")
    ensures r.Success? ==> r.value.0 == BondsFrom(bonds, startyear)
    ensures r.Success? ==>
              Lookup(r.value.0.columns, "Daily Returns").Some?
              && r.value.1 == Aggregates(r.value.0.columns[Lookup(r.value.0.columns, "Daily Returns").value].cells,
                                         volatility)
  {
    var kept := BondsFrom(bonds, startyear);
    match Lookup(kept.columns, "Daily Returns")
    case None =>
      Failure("KeyError: 'Daily Returns'")
    case Some(j) =>
      Success((kept, Aggregates(kept.columns[j].cells, volatility)))
  }

  /** The AGG column's cells on the rows dated startyear or later. */
  function CellsFrom(bonds: Frame, j: nat, startyear: int): (cells: seq<Cell>)
    requires WellFormed(bonds) && j < |bonds.columns|
    ensures var idx := Where(bonds.dates, FromYear(startyear));
            |cells| == |idx| && forall k :: 0 <= k < |idx| ==> cells[k] == bonds.columns[j].cells[idx[k]]
  {
    var idx := Where(bonds.dates, FromYear(startyear));
    assert bonds.columns[j] in bonds.columns;
    seq(|idx|, k requires 0 <= k < |idx| => bonds.columns[j].cells[idx[k]])
  }

  /** When the first column named 'AGG' or 'Daily Returns' is an 'AGG'
      column, the figures are those of that bond column's returns from
      startyear on. */
  lemma BondsFiguresOfAgg(bonds: Frame, startyear: int, volatility: seq<Cell> -> Cell, j: nat)
    requires WellFormed(bonds) && j < |bonds.columns| && bonds.columns[j].name == "AGG"
    requires forall i :: 0 <= i < j ==> bonds.columns[i].name != "AGG" && bonds.columns[i].name != "Daily Returns"
    ensures BondsPerformance(bonds, startyear, volatility).Success?
    ensures BondsPerformance(bonds, startyear, volatility).value.1
            == Aggregates(CellsFrom(bonds, j, startyear), volatility)
  {
    var g := BondsFrom(bonds, startyear);
    assert g.columns[j].name == "Daily Returns";
    assert forall i :: 0 <= i < j ==> g.columns[i].name != "Daily Returns";
    assert Lookup(g.columns, "Daily Returns") == Some(j);
    assert g.columns[j].cells == CellsFrom(bonds, j, startyear);
  }
}
