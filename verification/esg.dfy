/** The ESG universes: the equity and commodity tables with a fixed list of
    tickers dropped, pandas' drop(columns=excluded, errors='ignore'). */
module Esg {
  import opened Calendar
  import opened Panel

  /** Firms commonly excluded by green funds, in the order the equity filter
      lists them (98 tickers, written in four blocks so that a proof about one
      ticker can look at one block at a time). */
  function EquityExcluded(): (l: seq<string>)
    ensures |l| == 98
  {
    EquityExcludedA() + EquityExcludedB() + EquityExcludedC() + EquityExcludedD()
  }

  function EquityExcludedA(): seq<string>
  {
    ["MO", "PM", "XOM", "CVX", "COP", "EOG", "SLB", "MPC", "PSX", "VLO", "OXY", "HES", "DVN",
     "FANG", "MRO", "APA", "HAL", "BKR", "TRGP", "WMB", "KMI", "OKE", "LNG", "EQT", "CTRA"]
  }

  function EquityExcludedB(): seq<string>
  {
    ["CF", "MOS", "CCJ", "FCX", "NEM", "NUE", "STLD", "LMT", "RTX", "NOC", "GD", "BA", "LHX",
     "HWM", "TXT", "TSLA", "META", "GOOGL", "GOOG", "AMZN", "NFLX", "ORCL", "CRM", "INTC", "AMD"]
  }

  function EquityExcludedC(): seq<string>
  {
    ["NVDA", "QCOM", "AVGO", "TXN", "ADI", "NKE", "SBUX", "MCD", "YUM", "CMG", "DRI", "GM", "F",
     "JNJ", "UNH", "PFE", "ABBV", "TMO", "DHR", "ABT", "BMY", "AMGN", "GILD", "CVS", "CI"]
  }

  function EquityExcludedD(): seq<string>
  {
    ["BRK.B", "JPM", "BAC", "WFC", "C", "GS", "MS", "BLK", "SCHW", "USB", "PNC", "TFC", "AXP",
     "COF", "DFS", "NEE", "DUK", "SO", "D", "EXC", "AEP", "XEL", "ED"]
  }

  /** The energy futures the commodity filter excludes. */
  function CommodityExcluded(): seq<string>
  {
    ["CL=F", "BZ=F", "NG=F", "HO=F", "RB=F"]
  }

  /** A column survives when its name is not listed. */
  function Kept(excluded: seq<string>): Column -> bool
  {
    (c: Column) => c.name !in excluded
  }

  /** A name survives when it is not listed. */
  function Unlisted(excluded: seq<string>): string -> bool
  {
    (s: string) => s !in excluded
  }

  /** df.drop(columns=excluded, errors='ignore'): every column whose name is
      listed goes, every other column stays, the dates are untouched. */
  function DropColumns(f: Frame, excluded: seq<string>): (g: Frame)
    ensures g.dates == f.dates
    ensures forall c :: c in g.columns <==> (c in f.columns && c.name !in excluded)
    ensures WellFormed(f) ==> WellFormed(g)
  {
    Frame(f.dates, Filter(f.columns, Kept(excluded)))
  }

  /** equity_to_esg */
  function EquityToEsg(f: Frame): (g: Frame)
    ensures g.dates == f.dates
    ensures forall c :: c in g.columns <==> c in f.columns && c.name !in EquityExcluded()
  {
    DropColumns(f, EquityExcluded())
  }

  /** commodity_to_esg */
  function CommodityToEsg(f: Frame): (g: Frame)
    ensures g.dates == f.dates
    ensures forall c :: c in g.columns <==> c in f.columns && c.name !in CommodityExcluded()
  {
    DropColumns(f, CommodityExcluded())
  }

  /** The surviving column names are the input's names that are not listed,
      in the input's order (duplicates included). */
  lemma {:induction false} DropColumnsNames(cols: seq<Column>, excluded: seq<string>)
    ensures Names(Filter(cols, Kept(excluded))) == Filter(Names(cols), Unlisted(excluded))
  {
    if cols != [] {
      DropColumnsNames(cols[1..], excluded);
      assert Names(cols)[1..] == Names(cols[1..]);
      if cols[0].name !in excluded {
        assert Filter(cols, Kept(excluded)) == [cols[0]] + Filter(cols[1..], Kept(excluded));
        assert Names([cols[0]] + Filter(cols[1..], Kept(excluded)))
            == [cols[0].name] + Names(Filter(cols[1..], Kept(excluded)));
      } else {
        assert Filter(cols, Kept(excluded)) == Filter(cols[1..], Kept(excluded));
      }
    }
  }

  /** Dropping a list of columns from a concatenation of column blocks drops
      them from each block and keeps the blocks in order. */
  lemma DropColumnsConcat(dates: seq<Date>, a: seq<Column>, b: seq<Column>, excluded: seq<string>)
    ensures DropColumns(Frame(dates, a + b), excluded).columns
         == DropColumns(Frame(dates, a), excluded).columns + DropColumns(Frame(dates, b), excluded).columns
  {
    FilterAppend(a, b, Kept(excluded));
  }

  /** Dropping the same columns twice is dropping them once. */
  lemma DropColumnsIdempotent(f: Frame, excluded: seq<string>)
    ensures DropColumns(DropColumns(f, excluded), excluded) == DropColumns(f, excluded)
  {
    var g := DropColumns(f, excluded);
    forall i | 0 <= i < |g.columns|
      ensures Kept(excluded)(g.columns[i])
    {
      assert g.columns[i] in g.columns;
    }
    FilterAll(g.columns, Kept(excluded));
  }

  /** Filtering by two conditions that agree on every element gives the same
      result. */
  lemma {:induction false} FilterAgree<T(!new)>(s: seq<T>, p: T -> bool, q: T -> bool)
    requires forall i :: 0 <= i < |s| ==> p(s[i]) == q(s[i])
    ensures Filter(s, p) == Filter(s, q)
  {
    if s != [] {
      FilterAgree(s[1..], p, q);
    }
  }

  /** errors='ignore': a listed ticker that is not a column of the frame has no
      effect, and a frame with none of the listed tickers comes back whole. */
  lemma DropColumnsIgnoresAbsent(f: Frame, excluded: seq<string>, absent: seq<string>)
    requires forall c :: c in f.columns ==> c.name !in absent
    ensures DropColumns(f, excluded + absent) == DropColumns(f, excluded)
  {
    forall i | 0 <= i < |f.columns|
      ensures Kept(excluded + absent)(f.columns[i]) == Kept(excluded)(f.columns[i])
    {
      assert f.columns[i] in f.columns;
    }
    FilterAgree(f.columns, Kept(excluded + absent), Kept(excluded));
  }

  /** A frame with none of the listed tickers is returned unchanged. */
  lemma DropColumnsNoneListed(f: Frame, excluded: seq<string>)
    requires forall c :: c in f.columns ==> c.name !in excluded
    ensures DropColumns(f, excluded) == f
  {
    forall i | 0 <= i < |f.columns|
      ensures Kept(excluded)(f.columns[i])
    {
      assert f.columns[i] in f.columns;
    }
    FilterAll(f.columns, Kept(excluded));
  }

  /** The equity list spells Berkshire Hathaway 'BRK.B' while the downloaded
      universe spells it 'BRK-B': the latter is not listed. */
  lemma BerkshireNotListed()
    ensures "BRK.B" in EquityExcluded() && "BRK-B" !in EquityExcluded()
  {
    assert "BRK.B" in EquityExcludedD();
    BerkshireNotInA();
    BerkshireNotInB();
    BerkshireNotInC();
    BerkshireNotInD();
  }

  lemma BerkshireNotInA()
    ensures "BRK-B" !in EquityExcludedA()
  {
  }

  lemma BerkshireNotInB()
    ensures "BRK-B" !in EquityExcludedB()
  {
  }

  lemma BerkshireNotInC()
    ensures "BRK-B" !in EquityExcludedC()
  {
  }

  lemma BerkshireNotInD()
    ensures "BRK-B" !in EquityExcludedD()
  {
  }

  /** So the BRK-B column survives the equity ESG filter. */
  lemma BerkshireSurvives(f: Frame, c: Column)
    requires c in f.columns && c.name == "BRK-B"
    ensures c in EquityToEsg(f).columns
  {
    BerkshireNotListed();
  }

  /** Each of the five energy futures is gone from the commodity ESG table. */
  lemma EnergyFuturesDropped(f: Frame, ticker: string)
    requires ticker in ["CL=F", "BZ=F", "NG=F", "HO=F", "RB=F"]
    ensures ticker !in Names(CommodityToEsg(f).columns)
  {
    var g := CommodityToEsg(f);
    forall j | 0 <= j < |g.columns|
      ensures Names(g.columns)[j] != ticker
    {
      assert g.columns[j] in g.columns;
    }
  }
}
