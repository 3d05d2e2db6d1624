/** dailyreturns: prices to simple daily returns, pandas'
    pct_change(fill_method='ffill') followed by dropping the first row. */
module ReturnsTransform {
  import opened Wrappers
  import opened Calendar
  import opened Panel

  /** The forward-filled price at row t: the last present cell at or before t,
      NaN if the column has no price yet. */
  function FFill(cells: seq<Cell>, t: nat): (p: Cell)
    requires t < |cells|
    ensures cells[t].Some? ==> p == cells[t]
    ensures p.Some? ==> exists u :: 0 <= u <= t && cells[u] == p
  {
    if cells[t].Some? then cells[t]
    else if t == 0 then None
    else FFill(cells, t - 1)
  }

  /** The filled price is the latest present one: some row u at or before t
      holds it and every row after u up to t is missing; and it is NaN
      exactly when no row up to t has a price. */
  lemma {:induction false} FFillLatest(cells: seq<Cell>, t: nat)
    requires t < |cells|
    ensures FFill(cells, t).Some? ==>
              exists u :: 0 <= u <= t && cells[u] == FFill(cells, t) && forall v :: u < v <= t ==> cells[v].None?
    ensures FFill(cells, t).None? <==> forall u :: 0 <= u <= t ==> cells[u].None?
  {
    if cells[t].None? && t > 0 {
      FFillLatest(cells, t - 1);
      if FFill(cells, t).Some? {
        var u :| 0 <= u <= t - 1 && cells[u] == FFill(cells, t - 1) && forall v :: u < v <= t - 1 ==> cells[v].None?;
        assert forall v :: u < v <= t ==> cells[v].None?;
      }
    }
  }

  /** cur / prev - 1; NaN when either filled price is NaN. A zero previous
      price (numpy gives inf or NaN) is also represented as a missing cell. */
  function PctChange(cur: Cell, prev: Cell): (r: Cell)
    ensures r.Some? <==> cur.Some? && prev.Some? && prev.value != 0.0
  {
    if cur.Some? && prev.Some? && prev.value != 0.0 then Some(cur.value / prev.value - 1.0)
    else None
  }

  /** A present change grows the previous price back into the current one. */
  lemma PctChangeInverts(cur: Cell, prev: Cell)
    ensures PctChange(cur, prev).Some? ==> prev.value * (1.0 + PctChange(cur, prev).value) == cur.value
  {
    if PctChange(cur, prev).Some? {
      GrowBack(prev.value, cur.value);
    }
  }

  /** One column's returns: the change from filled row t to filled row t + 1,
      for every row but the first. */
  function ColumnReturns(cells: seq<Cell>): (r: seq<Cell>)
    ensures |r| == if |cells| == 0 then 0 else |cells| - 1
  {
    if |cells| == 0 then []
    else seq(|cells| - 1, t requires 0 <= t < |cells| - 1 =>
               PctChange(FFill(cells, t + 1), FFill(cells, t)))
  }

  /** dailyreturns(prices): same columns, the date index without its first
      date, each cell the forward-filled simple return. */
  function DailyReturns(prices: Frame): (r: Frame)
    requires WellFormed(prices)
    ensures WellFormed(r)
    ensures Names(r.columns) == Names(prices.columns)
    ensures |r.dates| == if |prices.dates| == 0 then 0 else |prices.dates| - 1
    ensures |prices.dates| > 0 ==> r.dates == prices.dates[1..]
  {
    var dates := if |prices.dates| == 0 then [] else prices.dates[1..];
    var cols := seq(|prices.columns|, j requires 0 <= j < |prices.columns| =>
                  Column(prices.columns[j].name, ColumnReturns(prices.columns[j].cells)));
    assert forall c :: c in cols ==> |c.cells| == |dates| by {
      forall c | c in cols ensures |c.cells| == |dates| {
        var j :| 0 <= j < |cols| && cols[j] == c;
        assert prices.columns[j] in prices.columns;
      }
    }
    Frame(dates, cols)
  }

  /** A cell of the return frame for two consecutive present prices is their
      simple return: returns[t] == prices[t+1] / prices[t] - 1. */
  lemma ReturnOfPresentPrices(prices: Frame, j: nat, t: nat)
    requires WellFormed(prices) && j < |prices.columns| && t + 1 < |prices.dates|
    requires prices.columns[j].cells[t].Some? && prices.columns[j].cells[t + 1].Some?
    requires prices.columns[j].cells[t].value != 0.0
    ensures DailyReturns(prices).columns[j].cells[t]
            == Some(prices.columns[j].cells[t + 1].value / prices.columns[j].cells[t].value - 1.0)
  {
    assert prices.columns[j] in prices.columns;
  }

  /** A missing price after a present one is filled forward, so that day's
      return is 0 rather than NaN: no trading day is invented, and none is lost. */
  lemma MissingPriceGivesZeroReturn(prices: Frame, j: nat, t: nat)
    requires WellFormed(prices) && j < |prices.columns| && t + 1 < |prices.dates|
    requires prices.columns[j].cells[t].Some? && prices.columns[j].cells[t].value != 0.0
    requires prices.columns[j].cells[t + 1].None?
    ensures DailyReturns(prices).columns[j].cells[t] == Some(0.0)
  {
    DailyReturnsCell(prices, j, t);
    var cells := prices.columns[j].cells;
    assert FFill(cells, t + 1) == FFill(cells, t) == cells[t];
    var p := cells[t].value;
    assert p / p == 1.0;
  }

  /** Cell t of return column j is the change between the filled prices of
      rows t and t + 1 of price column j. */
  lemma DailyReturnsCell(prices: Frame, j: nat, t: nat)
    requires WellFormed(prices) && j < |prices.columns| && t + 1 < |prices.dates|
    ensures |prices.columns[j].cells| == |prices.dates|
    ensures DailyReturns(prices).columns[j].cells[t]
            == PctChange(FFill(prices.columns[j].cells, t + 1), FFill(prices.columns[j].cells, t))
  {
    assert prices.columns[j] in prices.columns;
  }

  /** After a gap the filled price is the last present one: a present cell
      at u followed by missing cells up to t fills t with the price at u. */
  lemma {:induction false} FFillAcrossGap(cells: seq<Cell>, u: nat, t: nat)
    requires u <= t < |cells| && cells[u].Some?
    requires forall v :: u < v <= t ==> cells[v].None?
    ensures FFill(cells, t) == cells[u]
  {
    if u < t {
      FFillAcrossGap(cells, u, t - 1);
    }
  }

  /** A present price after missing ones gives the return against the last
      present price: returns[t] == prices[t+1] / prices[u] - 1, where u is
      the last row at or before t with a price. */
  lemma ReturnAfterGap(prices: Frame, j: nat, u: nat, t: nat)
    requires WellFormed(prices) && j < |prices.columns| && u <= t && t + 1 < |prices.dates|
    requires prices.columns[j].cells[u].Some? && prices.columns[j].cells[u].value != 0.0
    requires forall v :: u < v <= t ==> prices.columns[j].cells[v].None?
    requires prices.columns[j].cells[t + 1].Some?
    ensures DailyReturns(prices).columns[j].cells[t]
            == Some(prices.columns[j].cells[t + 1].value / prices.columns[j].cells[u].value - 1.0)
  {
    DailyReturnsCell(prices, j, t);
    FFillAcrossGap(prices.columns[j].cells, u, t);
  }

  /** A column that has no price up to row t + 1 has a NaN return there. */
  lemma NoPriceYetGivesNaN(prices: Frame, j: nat, t: nat)
    requires WellFormed(prices) && j < |prices.columns| && t + 1 < |prices.dates|
    requires forall u :: 0 <= u <= t ==> prices.columns[j].cells[u].None?
    ensures DailyReturns(prices).columns[j].cells[t].None?
  {
    assert prices.columns[j] in prices.columns;
    assert FFill(prices.columns[j].cells, t).None?;
  }

  /** The forward-filled price of a column whose present prices are all
      positive is positive. */
  lemma FilledPositive(cells: seq<Cell>, t: nat)
    requires t < |cells|
    requires forall u :: 0 <= u < |cells| && cells[u].Some? ==> 0.0 < cells[u].value
    ensures FFill(cells, t).Some? ==> 0.0 < FFill(cells, t).value
  {
    if FFill(cells, t).Some? {
      var u :| 0 <= u <= t && cells[u] == FFill(cells, t);
    }
  }

  /** Positive prices give returns strictly above -100%, the condition under
      which the drift replay stays well defined. */
  lemma ColumnReturnsAboveMinusOne(cells: seq<Cell>)
    requires forall u :: 0 <= u < |cells| && cells[u].Some? ==> 0.0 < cells[u].value
    ensures forall t :: 0 <= t < |ColumnReturns(cells)| && ColumnReturns(cells)[t].Some?
                        ==> -1.0 < ColumnReturns(cells)[t].value
  {
    var r := ColumnReturns(cells);
    forall t | 0 <= t < |r| && r[t].Some? ensures -1.0 < r[t].value {
      ReturnAboveMinusOne(cells, t);
    }
  }

  /** The same for one row. */
  lemma ReturnAboveMinusOne(cells: seq<Cell>, t: nat)
    requires forall u :: 0 <= u < |cells| && cells[u].Some? ==> 0.0 < cells[u].value
    requires t + 1 < |cells|
    ensures ColumnReturns(cells)[t].Some? ==> -1.0 < ColumnReturns(cells)[t].value
  {
    ColumnReturnAt(cells, t);
    FilledPositive(cells, t + 1);
    FilledPositive(cells, t);
    var cur, prev := FFill(cells, t + 1), FFill(cells, t);
    if cur.Some? && prev.Some? {
      RatioAboveMinusOne(cur.value, prev.value);
    }
  }

  lemma ColumnReturnAt(cells: seq<Cell>, t: nat)
    requires t + 1 < |cells|
    ensures ColumnReturns(cells)[t] == PctChange(FFill(cells, t + 1), FFill(cells, t))
  {
  }

  lemma RatioAboveMinusOne(a: real, b: real)
    requires 0.0 < a && 0.0 < b
    ensures -1.0 < a / b - 1.0
  {
    assert 0.0 < a / b;
  }

  /** Prices rebuilt from a first price and a sequence of simple returns:
      p_0, p_0 (1 + r_0), p_0 (1 + r_0)(1 + r_1), ... */
  function Compound(p0: real, rs: seq<real>): (ps: seq<real>)
    ensures |ps| == |rs| + 1 && ps[0] == p0
    decreases |rs|
  {
    if rs == [] then [p0] else [p0] + Compound(p0 * (1.0 + rs[0]), rs[1..])
  }

  lemma {:induction false} CompoundInverts(ps: seq<real>, rs: seq<real>)
    requires |ps| == |rs| + 1
    requires forall t :: 0 <= t < |ps| ==> ps[t] != 0.0
    requires forall t :: 0 <= t < |rs| ==> rs[t] == ps[t + 1] / ps[t] - 1.0
    ensures Compound(ps[0], rs) == ps
  {
    if rs != [] {
      GrowBack(ps[0], ps[1]);
      assert ps[0] * (1.0 + rs[0]) == ps[1];
      CompoundInverts(ps[1..], rs[1..]);
      assert ps == [ps[0]] + ps[1..];
    }
  }

  lemma GrowBack(a: real, b: real)
    requires a != 0.0
    ensures a * (1.0 + (b / a - 1.0)) == b
  {
    calc {
      a * (1.0 + (b / a - 1.0));
      a * (b / a);
      b;
    }
  }

  /** Round trip: for a column with a nonzero price on every date, compounding
      the first price with the column's returns rebuilds every price. */
  lemma PricesFromReturns(cells: seq<Cell>, ps: seq<real>)
    requires |cells| == |ps| > 0
    requires forall t :: 0 <= t < |ps| ==> cells[t] == Some(ps[t]) && ps[t] != 0.0
    ensures forall t :: 0 <= t < |ColumnReturns(cells)| ==> ColumnReturns(cells)[t].Some?
    ensures var r := ColumnReturns(cells);
            Compound(ps[0], seq(|r|, t requires 0 <= t < |r| => r[t].value)) == ps
  {
    var r := ColumnReturns(cells);
    var rs := seq(|r|, t requires 0 <= t < |r| => r[t].value);
    forall t | 0 <= t < |rs| ensures rs[t] == ps[t + 1] / ps[t] - 1.0 {
      ColumnReturnAt(cells, t);
      assert FFill(cells, t + 1) == cells[t + 1] && FFill(cells, t) == cells[t];
    }
    CompoundInverts(ps, rs);
  }
}
