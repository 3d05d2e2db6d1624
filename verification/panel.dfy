/** The pandas DataFrames the portfolio code passes around: a date index and
    named columns of cells, where a missing cell (NaN) is None. */
module Panel {
  import opened Wrappers
  import opened Calendar

  /** One cell of a frame; None is pandas' NaN. */
  type Cell = Option<real>

  datatype Column = Column(name: string, cells: seq<Cell>)

  datatype Frame = Frame(dates: seq<Date>, columns: seq<Column>)

  /** Every column has one cell per date. */
  predicate WellFormed(f: Frame)
  {
    forall c :: c in f.columns ==> |c.cells| == |f.dates|
  }

  function Names(cols: seq<Column>): (names: seq<string>)
    ensures |names| == |cols|
    ensures forall j :: 0 <= j < |cols| ==> names[j] == cols[j].name
  {
    seq(|cols|, j requires 0 <= j < |cols| => cols[j].name)
  }

  /** The elements of s that satisfy keep, in their original order. */
  function Filter<T(!new)>(s: seq<T>, keep: T -> bool): (r: seq<T>)
    ensures |r| <= |s|
    ensures forall x :: x in r <==> x in s && keep(x)
  {
    if s == [] then []
    else (if keep(s[0]) then [s[0]] else []) + Filter(s[1..], keep)
  }

  /** The positions i >= from of s whose element satisfies keep, in
      increasing order. */
  function PositionsFrom<T>(s: seq<T>, keep: T -> bool, from: nat): (idx: seq<nat>)
    requires from <= |s|
    ensures forall k :: 0 <= k < |idx| ==> from <= idx[k] < |s| && keep(s[idx[k]])
    ensures forall t :: from <= t < |s| && keep(s[t]) ==> t in idx
    ensures forall k, l :: 0 <= k < l < |idx| ==> idx[k] < idx[l]
    decreases |s| - from
  {
    if from == |s| then []
    else (if keep(s[from]) then [from] else []) + PositionsFrom(s, keep, from + 1)
  }

  /** The positions of s whose element satisfies keep, in increasing order. */
  function Positions<T>(s: seq<T>, keep: T -> bool): (idx: seq<nat>)
    ensures forall k :: 0 <= k < |idx| ==> idx[k] < |s| && keep(s[idx[k]])
    ensures forall t :: 0 <= t < |s| && keep(s[t]) ==> t in idx
    ensures forall k, l :: 0 <= k < l < |idx| ==> idx[k] < idx[l]
  {
    PositionsFrom(s, keep, 0)
  }

  /** Filter keeps order and multiplicity: its k-th element is the element
      of s at the k-th position that satisfies keep. */
  lemma FilterPositions<T(!new)>(s: seq<T>, keep: T -> bool)
    ensures |Filter(s, keep)| == |Positions(s, keep)|
    ensures forall k :: 0 <= k < |Positions(s, keep)| ==> Filter(s, keep)[k] == s[Positions(s, keep)[k]]
  {
    FilterPositionsFrom(s, keep, 0);
    assert s[0..] == s;
  }

  lemma {:induction false} FilterPositionsFrom<T(!new)>(s: seq<T>, keep: T -> bool, from: nat)
    requires from <= |s|
    ensures |Filter(s[from..], keep)| == |PositionsFrom(s, keep, from)|
    ensures forall k :: 0 <= k < |PositionsFrom(s, keep, from)| ==>
              Filter(s[from..], keep)[k] == s[PositionsFrom(s, keep, from)[k]]
    decreases |s| - from
  {
    if from < |s| {
      FilterPositionsFrom(s, keep, from + 1);
      assert s[from..][0] == s[from];
      assert s[from..][1..] == s[from + 1..];
    }
  }

  lemma {:induction false} FilterAppend<T(!new)>(a: seq<T>, b: seq<T>, keep: T -> bool)
    ensures Filter(a + b, keep) == Filter(a, keep) + Filter(b, keep)
  {
    if a == [] {
      assert a + b == b;
    } else {
      assert (a + b)[0] == a[0];
      assert (a + b)[1..] == a[1..] + b;
      FilterAppend(a[1..], b, keep);
    }
  }

  /** Filtering twice by two conditions is filtering once by both. */
  lemma {:induction false} FilterFilter<T(!new)>(s: seq<T>, p: T -> bool, q: T -> bool, pq: T -> bool)
    requires forall x :: pq(x) == (p(x) && q(x))
    ensures Filter(Filter(s, p), q) == Filter(s, pq)
  {
    if s != [] {
      FilterFilter(s[1..], p, q, pq);
      if p(s[0]) {
        assert Filter(s, p) == [s[0]] + Filter(s[1..], p);
        assert Filter(s, p)[1..] == Filter(s[1..], p);
      } else {
        assert Filter(s, p) == Filter(s[1..], p);
      }
    }
  }

  /** Filtering by a condition every element meets changes nothing. */
  lemma {:induction false} FilterAll<T(!new)>(s: seq<T>, keep: T -> bool)
    requires forall i :: 0 <= i < |s| ==> keep(s[i])
    ensures Filter(s, keep) == s
  {
    if s != [] {
      FilterAll(s[1..], keep);
    }
  }

  /** The positions t, in increasing order, whose date satisfies keep: the
      boolean mask of df.loc[mask]. */
  function Where(dates: seq<Date>, keep: Date -> bool): (idx: seq<nat>)
    ensures forall k :: 0 <= k < |idx| ==> idx[k] < |dates| && keep(dates[idx[k]])
    ensures forall t :: 0 <= t < |dates| && keep(dates[t]) ==> t in idx
    ensures forall k, l :: 0 <= k < l < |idx| ==> idx[k] < idx[l]
  {
    if dates == [] then []
    else
      var n := |dates| - 1;
      var front := Where(dates[..n], keep);
      assert forall t :: 0 <= t < n ==> dates[..n][t] == dates[t];
      front + (if keep(dates[n]) then [n] else [])
  }

  /** df.iloc[idx]: the rows at the given positions, in that order. */
  function Rows(f: Frame, idx: seq<nat>): (g: Frame)
    requires WellFormed(f)
    requires forall k :: 0 <= k < |idx| ==> idx[k] < |f.dates|
    ensures WellFormed(g) && |g.dates| == |idx| && Names(g.columns) == Names(f.columns)
    ensures forall k :: 0 <= k < |idx| ==> g.dates[k] == f.dates[idx[k]]
    ensures forall j, k :: 0 <= j < |f.columns| && 0 <= k < |idx| ==>
              g.columns[j].cells[k] == f.columns[j].cells[idx[k]]
  {
    Frame(seq(|idx|, k requires 0 <= k < |idx| => f.dates[idx[k]]),
          seq(|f.columns|, j requires 0 <= j < |f.columns| =>
            Column(f.columns[j].name,
                   seq(|idx|, k requires 0 <= k < |idx| => f.columns[j].cells[idx[k]]))))
  }

  /** The test d.year == y of a date. */
  function InYear(y: int): Date -> bool
  {
    (d: Date) => d.year == y
  }

  /** df.loc[df.index.year == y] */
  function YearRows(f: Frame, y: int): (g: Frame)
    requires WellFormed(f)
    ensures WellFormed(g) && Names(g.columns) == Names(f.columns)
    ensures g == Rows(f, Where(f.dates, InYear(y)))
  {
    Rows(f, Where(f.dates, InYear(y)))
  }

  /** The year's rows are exactly the rows dated in year y, in their order,
      each with its cells: no row of year y is lost and no other row kept. */
  lemma YearRowsExact(f: Frame, y: int)
    requires WellFormed(f)
    ensures var g := YearRows(f, y);
            var idx := Where(f.dates, InYear(y));
            |g.dates| == |idx|
            && (forall k :: 0 <= k < |idx| ==> g.dates[k] == f.dates[idx[k]] && g.dates[k].year == y)
            && (forall j, k :: 0 <= j < |f.columns| && 0 <= k < |idx| ==>
                  g.columns[j].cells[k] == f.columns[j].cells[idx[k]])
            && (forall k, l :: 0 <= k < l < |idx| ==> idx[k] < idx[l])
            && (forall t :: 0 <= t < |f.dates| && f.dates[t].year == y ==> t in idx)
  {
  }

  /** A vector of present cells. */
  function Present(w: seq<real>): (cells: seq<Cell>)
    ensures |cells| == |w| && forall i :: 0 <= i < |w| ==> cells[i] == Some(w[i])
  {
    seq(|w|, i requires 0 <= i < |w| => Some(w[i]))
  }

  /** A column with no NaN. */
  predicate Complete(c: Column)
  {
    forall t :: 0 <= t < |c.cells| ==> c.cells[t].Some?
  }

  /** df.dropna(axis=1): the columns without any NaN, in order. */
  function DropIncomplete(f: Frame): (g: Frame)
    requires WellFormed(f)
    ensures WellFormed(g) && g.dates == f.dates
    ensures forall j :: 0 <= j < |g.columns| ==> Complete(g.columns[j])
    ensures forall c :: c in g.columns <==> c in f.columns && Complete(c)
    ensures var idx := Positions(f.columns, Complete);
            |g.columns| == |idx| && forall k :: 0 <= k < |idx| ==> g.columns[k] == f.columns[idx[k]]
  {
    FilterPositions(f.columns, Complete);
    Frame(f.dates, Filter(f.columns, Complete))
  }

  /** The rows of a frame without NaN, as real vectors in column order. */
  function Dense(f: Frame): (m: seq<seq<real>>)
    requires WellFormed(f)
    requires forall j :: 0 <= j < |f.columns| ==> Complete(f.columns[j])
    ensures |m| == |f.dates|
    ensures forall t :: 0 <= t < |m| ==> |m[t]| == |f.columns|
  {
    seq(|f.dates|, t requires 0 <= t < |f.dates| =>
      seq(|f.columns|, j requires 0 <= j < |f.columns| =>
        assert f.columns[j] in f.columns && Complete(f.columns[j]);
        f.columns[j].cells[t].value))
  }

  /** Row t of a frame as a vector of cells (df.iloc[t]). */
  function RowAt(f: Frame, t: nat): (r: seq<Cell>)
    requires WellFormed(f) && t < |f.dates|
    ensures |r| == |f.columns|
  {
    seq(|f.columns|, j requires 0 <= j < |f.columns| => f.columns[j].cells[t])
  }
}
