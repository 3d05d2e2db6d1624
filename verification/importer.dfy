/** importer_data: the offline pipeline that turns the four downloaded price
    tables into return tables and the ERC tables of five universes. The
    downloads and the CSV files in between are left out; the price tables are
    its inputs. */
module Importer {
  import opened Wrappers
  import opened Calendar
  import opened Panel
  import opened RiskParity
  import opened PeriodLoop
  import opened ErcTables
  import opened ReturnsTransform
  import opened Esg

  /** The downloaded closes: equity, crypto (every calendar day), commodity
      futures and the AGG bond ETF. */
  datatype Prices = Prices(equity: Frame, crypto: Frame, commodity: Frame, bonds: Frame)

  predicate PricesWellFormed(p: Prices)
  {
    WellFormed(p.equity) && WellFormed(p.crypto) && WellFormed(p.commodity) && WellFormed(p.bonds)
  }

  /** The universes an ERC table is built for, in the order they are built. */
  datatype Universe = Equity | EquityEsg | Commodity | CommodityEsg | Crypto

  function Universes(): seq<Universe>
  {
    [Equity, EquityEsg, Commodity, CommodityEsg, Crypto]
  }

  /** A date that is also a trading day of the equity table. */
  function InDates(dates: seq<Date>): Date -> bool
  {
    (d: Date) => d in dates
  }

  /** crypto.loc[crypto.index.isin(equity dates)]: the crypto rows whose date
      is an equity trading day, in the crypto table's order. */
  function AlignToDates(crypto: Frame, dates: seq<Date>): (g: Frame)
    requires WellFormed(crypto)
    ensures WellFormed(g) && Names(g.columns) == Names(crypto.columns)
  {
    Rows(crypto, Where(crypto.dates, InDates(dates)))
  }

  /** The aligned crypto table keeps exactly the crypto rows on equity trading
      days: each of its rows is some crypto row t on such a day, cell for cell,
      the rows keep their order, and no crypto row on such a day is lost. */
  lemma AlignToDatesRows(crypto: Frame, dates: seq<Date>)
    requires WellFormed(crypto)
    ensures var idx := Where(crypto.dates, InDates(dates));
            var g := AlignToDates(crypto, dates);
            |g.dates| == |idx|
            && (forall k :: 0 <= k < |idx| ==>
                  idx[k] < |crypto.dates| && g.dates[k] == crypto.dates[idx[k]] && g.dates[k] in dates
                  && forall j :: 0 <= j < |crypto.columns| ==> g.columns[j].cells[k] == crypto.columns[j].cells[idx[k]])
            && (forall k, l :: 0 <= k < l < |idx| ==> idx[k] < idx[l])
            && (forall t :: 0 <= t < |crypto.dates| && crypto.dates[t] in dates ==> t in idx)
  {
  }

  /** The aligned crypto dates are the crypto dates that are equity trading
      days, and nothing else. */
  lemma AlignToDatesDates(crypto: Frame, dates: seq<Date>)
    requires WellFormed(crypto)
    ensures forall d :: d in AlignToDates(crypto, dates).dates <==> (d in crypto.dates && d in dates)
  {
    var idx := Where(crypto.dates, InDates(dates));
    var g := AlignToDates(crypto, dates);
    forall d | d in crypto.dates && d in dates
      ensures d in g.dates
    {
      var t :| 0 <= t < |crypto.dates| && crypto.dates[t] == d;
      assert InDates(dates)(crypto.dates[t]);
      var k :| 0 <= k < |idx| && idx[k] == t;
      assert g.dates[k] == d;
    }
  }

  /** The return table of a universe: dailyreturns of its price table, the ESG
      tables being filtered before the returns are taken and the crypto table
      being aligned to the equity dates when it is imported. */
  function UniverseReturns(p: Prices, u: Universe): (r: Frame)
    requires PricesWellFormed(p)
    ensures WellFormed(r)
  {
    match u
    case Equity => DailyReturns(p.equity)
    case EquityEsg => DailyReturns(EquityToEsg(p.equity))
    case Commodity => DailyReturns(p.commodity)
    case CommodityEsg => DailyReturns(CommodityToEsg(p.commodity))
    case Crypto => DailyReturns(AlignToDates(p.crypto, p.equity.dates))
  }

  /** compute_erc_weights on one universe's returns. */
  function UniverseStep(p: Prices, solve: (Option<seq<seq<real>>>, seq<real>) -> seq<real>, root: real -> real)
    : Universe -> Result<(seq<Record>, seq<Record>), string>
    requires PricesWellFormed(p) && ErcSolver(solve) && IsSqrt(root)
  {
    (u: Universe) => ErcTables.ErcTables(UniverseReturns(p, u), solve, root)
  }

  /** The five compute_erc_weights calls in order; the first that raises ends
      the script with its error. */
  function ImporterData(p: Prices, solve: (Option<seq<seq<real>>>, seq<real>) -> seq<real>, root: real -> real)
    : (res: Result<seq<(seq<Record>, seq<Record>)>, string>)
    requires PricesWellFormed(p) && ErcSolver(solve) && IsSqrt(root)
    ensures res.Success? ==> |res.value| == |Universes()|
  {
    Accumulate(UniverseStep(p, solve, root), Universes())
  }

  /** compute_erc_weights on universe u's returns. */
  function UniverseTables(p: Prices, u: Universe, solve: (Option<seq<seq<real>>>, seq<real>) -> seq<real>,
                          root: real -> real): Result<(seq<Record>, seq<Record>), string>
    requires PricesWellFormed(p) && ErcSolver(solve) && IsSqrt(root)
  {
    ErcTables.ErcTables(UniverseReturns(p, u), solve, root)
  }

  /** The script fails exactly when one of the five universes' tables fails. */
  lemma ImporterDataFails(p: Prices, solve: (Option<seq<seq<real>>>, seq<real>) -> seq<real>, root: real -> real)
    requires PricesWellFormed(p) && ErcSolver(solve) && IsSqrt(root)
    ensures ImporterData(p, solve, root).Failure? <==>
            exists u :: u in Universes() && UniverseTables(p, u, solve, root).Failure?
  {
    var step := UniverseStep(p, solve, root);
    AccumulateFailIff(step, Universes());
    assert forall u :: step(u) == UniverseTables(p, u, solve, root);
  }

  /** Otherwise entry k holds the weight table and the risk-contribution
      table of universe k, the order being equity, equity ESG, commodity,
      commodity ESG, crypto. */
  lemma ImporterDataEntry(p: Prices, solve: (Option<seq<seq<real>>>, seq<real>) -> seq<real>, root: real -> real,
                          k: nat)
    requires PricesWellFormed(p) && ErcSolver(solve) && IsSqrt(root)
    requires ImporterData(p, solve, root).Success? && k < |Universes()|
    ensures UniverseTables(p, Universes()[k], solve, root).Success?
    ensures ImporterData(p, solve, root).value[k] == UniverseTables(p, Universes()[k], solve, root).value
  {
    AccumulateEntry(UniverseStep(p, solve, root), Universes(), k);
    StepIsTables(p, solve, root);
  }

  lemma StepIsTables(p: Prices, solve: (Option<seq<seq<real>>>, seq<real>) -> seq<real>, root: real -> real)
    requires PricesWellFormed(p) && ErcSolver(solve) && IsSqrt(root)
    ensures forall u :: UniverseStep(p, solve, root)(u) == UniverseTables(p, u, solve, root)
  {
  }

  /** The bond prices feed no universe's returns. */
  lemma UniverseReturnsIgnoresBonds(p: Prices, bonds: Frame, u: Universe)
    requires PricesWellFormed(p) && WellFormed(bonds)
    ensures UniverseReturns(p.(bonds := bonds), u) == UniverseReturns(p, u)
  {
  }

  /** No ERC table is built for bonds: the result does not depend on the bond
      prices at all. */
  lemma ImporterDataIgnoresBonds(p: Prices, bonds: Frame, solve: (Option<seq<seq<real>>>, seq<real>) -> seq<real>,
                                 root: real -> real)
    requires PricesWellFormed(p) && WellFormed(bonds) && ErcSolver(solve) && IsSqrt(root)
    ensures ImporterData(p.(bonds := bonds), solve, root) == ImporterData(p, solve, root)
  {
    var q := p.(bonds := bonds);
    forall u | u in Universes()
      ensures UniverseStep(q, solve, root)(u) == UniverseStep(p, solve, root)(u)
    {
      UniverseReturnsIgnoresBonds(p, bonds, u);
    }
    AccumulateSame(UniverseStep(q, solve, root), UniverseStep(p, solve, root), Universes());
  }

  /** Two steps that agree on every period give the same loop. */
  lemma {:induction false} AccumulateSame<K, T>(s1: K -> Result<T, string>, s2: K -> Result<T, string>, periods: seq<K>)
    requires forall k :: k in periods ==> s1(k) == s2(k)
    ensures Accumulate(s1, periods) == Accumulate(s2, periods)
  {
    if periods != [] {
      var n := |periods| - 1;
      assert forall k :: k in periods[..n] ==> k in periods;
      AccumulateSame(s1, s2, periods[..n]);
    }
  }

  /** One price column's return column, under the same name. */
  function ReturnColumn(c: Column): (r: Column)
    ensures r.name == c.name
  {
    Column(c.name, ColumnReturns(c.cells))
  }

  /** The return columns of a block of price columns, one for one. */
  function ReturnColumns(cols: seq<Column>): (rs: seq<Column>)
    ensures |rs| == |cols|
    ensures forall j :: 0 <= j < |cols| ==> rs[j] == ReturnColumn(cols[j])
  {
    if cols == [] then [] else [ReturnColumn(cols[0])] + ReturnColumns(cols[1..])
  }

  /** The columns of a return table are the return columns of the prices. */
  lemma DailyReturnsColumns(prices: Frame)
    requires WellFormed(prices)
    ensures DailyReturns(prices).columns == ReturnColumns(prices.columns)
  {
  }

  /** Taking returns keeps the names, so it commutes with dropping columns by
      name. */
  lemma {:induction false} ReturnColumnsFilter(cols: seq<Column>, excluded: seq<string>)
    ensures ReturnColumns(Filter(cols, Kept(excluded))) == Filter(ReturnColumns(cols), Kept(excluded))
  {
    if cols != [] {
      ReturnColumnsFilter(cols[1..], excluded);
      assert ReturnColumns(cols)[1..] == ReturnColumns(cols[1..]);
      if cols[0].name !in excluded {
        assert Filter(cols, Kept(excluded)) == [cols[0]] + Filter(cols[1..], Kept(excluded));
        assert ReturnColumns([cols[0]] + Filter(cols[1..], Kept(excluded)))[1..]
            == ReturnColumns(Filter(cols[1..], Kept(excluded)));
      } else {
        assert Filter(cols, Kept(excluded)) == Filter(cols[1..], Kept(excluded));
      }
    }
  }

  /** The returns of the filtered prices are the filtered returns: taking
      dailyreturns before or after dropping columns gives the same table. */
  lemma ReturnsCommuteWithDrop(prices: Frame, excluded: seq<string>)
    requires WellFormed(prices)
    ensures DailyReturns(DropColumns(prices, excluded)) == DropColumns(DailyReturns(prices), excluded)
  {
    DailyReturnsColumns(prices);
    DailyReturnsColumns(DropColumns(prices, excluded));
    ReturnColumnsFilter(prices.columns, excluded);
  }

  /** In particular the equity ESG returns are the equity returns without the
      excluded firms, and the same holds for the commodity ESG returns. */
  lemma EsgReturns(p: Prices)
    requires PricesWellFormed(p)
    ensures UniverseReturns(p, EquityEsg) == EquityToEsg(UniverseReturns(p, Equity))
    ensures UniverseReturns(p, CommodityEsg) == CommodityToEsg(UniverseReturns(p, Commodity))
  {
    ReturnsCommuteWithDrop(p.equity, EquityExcluded());
    ReturnsCommuteWithDrop(p.commodity, CommodityExcluded());
  }
}
