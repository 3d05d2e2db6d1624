/** combine_returns: the daily return series of the chosen asset classes,
    each renamed after its class, side by side on the dates where all of
    them have a value. */
module Combiner {
  import opened Wrappers
  import opened Calendar
  import opened Panel
  import opened Performance

  /** The column names of the six asset classes, in the order of the
      function's arguments. */
  const ClassNames: seq<string> :=
    ["Equity Returns", "EquityESG Returns", "Commodity Returns",
     "CommodityESG Returns", "Crypto Returns", "Bonds Returns"]

  const IndexError := "IndexError: list index out of range"
  const NothingSelected := "ValueError: No DataFrames selected for combination based on the 'choice' variable."

  /** One chosen series, renamed after its asset class. */
  datatype Selection = Selection(name: string, series: seq<Observation>)

  /** The loop over the first n entries of choice: a chosen class with a
      series is appended, a chosen class without one (None) is skipped, and
      a 1 past the sixth position indexes past the list of inputs. */
  function Select(inputs: seq<Option<seq<Observation>>>, choice: seq<int>, n: nat)
    : (r: Result<seq<Selection>, string>)
    requires |inputs| == |ClassNames| && n <= |choice|
  {
    if n == 0 then Success([])
    else
      match Select(inputs, choice, n - 1)
      case Failure(e) => Failure(e)
      case Success(acc) =>
        var i := n - 1;
        if choice[i] != 1 then Success(acc)
        else if i >= |ClassNames| then Failure(IndexError)
        else if inputs[i].None? then Success(acc)
        else Success(acc + [Selection(ClassNames[i], inputs[i].value)])
  }

  /** The positions 0 .. n-1. */
  function Range(n: nat): (r: seq<int>)
    ensures |r| == n && forall k :: 0 <= k < n ==> r[k] == k
  {
    if n == 0 then [] else Range(n - 1) + [n - 1]
  }

  /** Position i is chosen and has a series. */
  function Picked(inputs: seq<Option<seq<Observation>>>, choice: seq<int>): int -> bool
  {
    (i: int) => 0 <= i < |choice| && i < |inputs| && choice[i] == 1 && inputs[i].Some?
  }

  /** The positions of the chosen classes that have a series, in order. */
  function Picks(inputs: seq<Option<seq<Observation>>>, choice: seq<int>, n: nat): seq<int>
  {
    Filter(Range(n), Picked(inputs, choice))
  }

  /** A 1 at a position past the six classes. */
  predicate OutOfRange(choice: seq<int>, n: nat)
  {
    exists i :: 0 <= i < n && i < |choice| && choice[i] == 1 && i >= |ClassNames|
  }

  /** One more position adds itself to the picks when it is picked. */
  lemma PicksSnoc(inputs: seq<Option<seq<Observation>>>, choice: seq<int>, n: nat)
    requires 0 < n
    ensures Picks(inputs, choice, n)
            == Picks(inputs, choice, n - 1) + (if Picked(inputs, choice)(n - 1) then [n - 1] else [])
  {
    var keep := Picked(inputs, choice);
    assert Range(n) == Range(n - 1) + [n - 1];
    FilterAppend(Range(n - 1), [n - 1], keep);
    assert Filter([n - 1], keep) == (if keep(n - 1) then [n - 1] else []) + Filter([], keep);
  }

  /** The loop fails, with IndexError, exactly when some 1 lies past the
      six classes. */
  lemma {:induction false} SelectFails(inputs: seq<Option<seq<Observation>>>, choice: seq<int>, n: nat)
    requires |inputs| == |ClassNames| && n <= |choice|
    ensures Select(inputs, choice, n).Failure? <==> OutOfRange(choice, n)
    ensures Select(inputs, choice, n).Failure? ==> Select(inputs, choice, n).error == IndexError
  {
    if n > 0 {
      SelectFails(inputs, choice, n - 1);
      var i := n - 1;
      if OutOfRange(choice, n - 1) {
        var j :| 0 <= j < n - 1 && j < |choice| && choice[j] == 1 && j >= |ClassNames|;
        assert 0 <= j < n;
      }
      if OutOfRange(choice, n) && !OutOfRange(choice, n - 1) {
        var j :| 0 <= j < n && j < |choice| && choice[j] == 1 && j >= |ClassNames|;
        assert j == i;
      }
      if choice[i] == 1 && i >= |ClassNames| {
        assert OutOfRange(choice, n);
      }
    }
  }

  /** Otherwise the loop selects the classes Picks names, in increasing
      order, each under its class name with its own series. */
  lemma {:induction false} SelectPicks(inputs: seq<Option<seq<Observation>>>, choice: seq<int>, n: nat)
    requires |inputs| == |ClassNames| && n <= |choice|
    requires Select(inputs, choice, n).Success?
    ensures var sel, picks := Select(inputs, choice, n).value, Picks(inputs, choice, n);
            |sel| == |picks|
            && forall k :: 0 <= k < |sel| ==>
                 0 <= picks[k] < |ClassNames| && inputs[picks[k]].Some?
                 && sel[k] == Selection(ClassNames[picks[k]], inputs[picks[k]].value)
  {
    if n > 0 {
      SelectPicks(inputs, choice, n - 1);
      PicksSnoc(inputs, choice, n);
    }
  }

  /** The value of a series on date d, first match; None when d is absent. */
  function ValueOn(series: seq<Observation>, d: Date): (c: Cell)
    ensures c.Some? ==> exists t :: 0 <= t < |series| && series[t] == (d, c)
  {
    if series == [] then None
    else if series[0].0 == d then series[0].1
    else ValueOn(series[1..], d)
  }

  /** Every selected series has a value on d. */
  predicate AllPresent(sel: seq<Selection>, d: Date)
  {
    forall k :: 0 <= k < |sel| ==> ValueOn(sel[k].series, d).Some?
  }

  /** The observation's date is one every selected series has a value on. */
  function Shared(sel: seq<Selection>): Observation -> bool
  {
    (o: Observation) => AllPresent(sel, o.0)
  }

  /** The rows of the first series whose date every series has a value on. */
  function CommonDates(sel: seq<Selection>): (dates: seq<Date>)
    requires sel != []
    ensures forall t :: 0 <= t < |dates| ==> AllPresent(sel, dates[t])
  {
    var rows := Filter(sel[0].series, Shared(sel));
    assert forall t :: 0 <= t < |rows| ==> rows[t] in rows && Shared(sel)(rows[t]);
    seq(|rows|, t requires 0 <= t < |rows| => rows[t].0)
  }

  /** pd.concat(dfs_to_concat, axis=1).dropna(): one column per selected
      series, on the dates where every series has a value. */
  function Concat(sel: seq<Selection>): (f: Frame)
    requires sel != []
    ensures WellFormed(f) && f.dates == CommonDates(sel)
    ensures |f.columns| == |sel|
    ensures forall k :: 0 <= k < |sel| ==> f.columns[k].name == sel[k].name && Complete(f.columns[k])
    ensures forall k, t :: 0 <= k < |sel| && 0 <= t < |f.dates| ==>
              f.columns[k].cells[t] == ValueOn(sel[k].series, f.dates[t])
  {
    var dates := CommonDates(sel);
    Frame(dates, seq(|sel|, k requires 0 <= k < |sel| =>
      Column(sel[k].name, seq(|dates|, t requires 0 <= t < |dates| => ValueOn(sel[k].series, dates[t])))))
  }

  /** A date is a row of the combined frame exactly when every selected
      series has a value on it. */
  lemma CommonDatesExact(sel: seq<Selection>, d: Date)
    requires sel != []
    ensures d in CommonDates(sel) <==> AllPresent(sel, d)
  {
    var rows := Filter(sel[0].series, Shared(sel));
    var dates := CommonDates(sel);
    if AllPresent(sel, d) {
      var c := ValueOn(sel[0].series, d);
      var t :| 0 <= t < |sel[0].series| && sel[0].series[t] == (d, c);
      assert (d, c) in sel[0].series;
      assert (d, c) in rows;
      var u :| 0 <= u < |rows| && rows[u] == (d, c);
      assert dates[u] == d;
    }
  }

  /** The whole of combine_returns. */
  function CombineSpec(inputs: seq<Option<seq<Observation>>>, choice: seq<int>): (r: Result<Frame, string>)
    requires |inputs| == |ClassNames|
  {
    match Select(inputs, choice, |choice|)
    case Failure(e) => Failure(e)
    case Success(sel) =>
      if sel == [] then Failure(NothingSelected) else Success(Concat(sel))
  }

  /** combine_returns(equity, equityESG, commodity, commodityESG, crypto,
      bonds, choice), the six inputs given as a sequence. */
  method CombineReturns(inputs: seq<Option<seq<Observation>>>, choice: seq<int>)
    returns (r: Result<Frame, string>)
    requires |inputs| == |ClassNames|
    ensures r == CombineSpec(inputs, choice)
  {
    var dfsToConcat: seq<Selection> := [];
    var i := 0;
    while i < |choice|
      invariant 0 <= i <= |choice|
      invariant Select(inputs, choice, i) == Success(dfsToConcat)
    {
      if choice[i] == 1 {
        if i >= |ClassNames| {
          r := Failure(IndexError);
          AbortPersists(inputs, choice, i + 1, |choice|);
          return;
        }
        var current := inputs[i];
        if current.Some? {
          dfsToConcat := dfsToConcat + [Selection(ClassNames[i], current.value)];
        }
      }
      i := i + 1;
    }
    if dfsToConcat == [] {
      return Failure(NothingSelected);
    }
    r := Success(Concat(dfsToConcat));
  }

  /** A failure of the first n positions is the failure of the whole loop. */
  lemma {:induction false} AbortPersists(inputs: seq<Option<seq<Observation>>>, choice: seq<int>, n: nat, m: nat)
    requires |inputs| == |ClassNames| && n <= m <= |choice|
    requires Select(inputs, choice, n).Failure?
    ensures Select(inputs, choice, m) == Select(inputs, choice, n)
    decreases m - n
  {
    if n < m {
      AbortPersists(inputs, choice, n, m - 1);
    }
  }

  /** combine_returns raises IndexError exactly when a 1 lies past the six
      classes, and otherwise ValueError exactly when no chosen class has a
      series; selected-but-None classes are skipped, not errors. */
  lemma CombineErrors(inputs: seq<Option<seq<Observation>>>, choice: seq<int>)
    requires |inputs| == |ClassNames|
    ensures CombineSpec(inputs, choice) == Failure(IndexError) <==> OutOfRange(choice, |choice|)
    ensures CombineSpec(inputs, choice) == Failure(NothingSelected) <==>
              !OutOfRange(choice, |choice|)
              && forall i :: 0 <= i < |choice| && i < |ClassNames| && choice[i] == 1 ==> inputs[i].None?
  {
    var n := |choice|;
    SelectFails(inputs, choice, n);
    var picks := Picks(inputs, choice, n);
    if !OutOfRange(choice, n) {
      SelectPicks(inputs, choice, n);
    }
    if !OutOfRange(choice, n) {
      if picks != [] {
        assert picks[0] in picks;
        var i := picks[0];
        assert Picked(inputs, choice)(i);
      }
      if exists i :: 0 <= i < n && i < |ClassNames| && choice[i] == 1 && inputs[i].Some? {
        var i :| 0 <= i < n && i < |ClassNames| && choice[i] == 1 && inputs[i].Some?;
        assert Range(n)[i] == i;
        assert i in Range(n) && Picked(inputs, choice)(i);
        assert i in picks;
      }
    }
  }

  /** On success the columns are the class names of the chosen classes that
      have a series, in the fixed order Equity, EquityESG, Commodity,
      CommodityESG, Crypto, Bonds; every cell is present; and the rows are
      exactly the dates on which every one of those series has a value. */
  lemma CombineResult(inputs: seq<Option<seq<Observation>>>, choice: seq<int>)
    requires |inputs| == |ClassNames|
    requires CombineSpec(inputs, choice).Success?
    ensures var f, picks := CombineSpec(inputs, choice).value, Picks(inputs, choice, |choice|);
            var sel := Select(inputs, choice, |choice|).value;
            WellFormed(f) && sel != []
            && |f.columns| == |picks|
            && (forall k :: 0 <= k < |picks| ==>
                  0 <= picks[k] < |ClassNames| && f.columns[k].name == ClassNames[picks[k]]
                  && Complete(f.columns[k]))
            && (forall k, l :: 0 <= k < l < |picks| ==> picks[k] < picks[l])
            && (forall d :: d in f.dates <==> AllPresent(sel, d))
  {
    var n := |choice|;
    SelectFails(inputs, choice, n);
    SelectPicks(inputs, choice, n);
    var sel := Select(inputs, choice, n).value;
    forall d ensures d in CombineSpec(inputs, choice).value.dates <==> AllPresent(sel, d) {
      CommonDatesExact(sel, d);
    }
    FilterOrdered(Range(n), Picked(inputs, choice));
  }

  /** Filtering an increasing sequence keeps it increasing. */
  lemma {:induction false} FilterOrdered(s: seq<int>, keep: int -> bool)
    requires forall k, l :: 0 <= k < l < |s| ==> s[k] < s[l]
    ensures forall k, l :: 0 <= k < l < |Filter(s, keep)| ==> Filter(s, keep)[k] < Filter(s, keep)[l]
  {
    if s != [] {
      FilterOrdered(s[1..], keep);
      var rest := Filter(s[1..], keep);
      forall l | 0 <= l < |rest| ensures s[0] < rest[l] {
        assert rest[l] in rest;
      }
    }
  }
}
