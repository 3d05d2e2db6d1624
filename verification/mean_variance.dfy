/** meanvar_portfolio: the monthly walk-forward mean-variance backtest. For
    every month start from January 2018 to October 2025 the optimiser is fed
    the last 63 rows before the month, its weights are recorded, and they
    are replayed with drift over the month's rows. Also the utility it
    maximises and the risk-score to risk-aversion table. */
module MeanVariance {
  import opened Wrappers
  import opened Calendar
  import opened Panel
  import opened LinAlg
  import opened RiskParity
  import opened ErcTables
  import opened ErcBacktest
  import opened PeriodLoop
  import opened Combiner

  /** The lookback length in rows. */
  const LookbackRows: nat := 63

  /** port_return: the portfolio's expected return w . mu. */
  function PortReturn(w: seq<real>, means: seq<real>): real
    requires |w| == |means|
  {
    Dot(w, means)
  }

  /** A fully invested portfolio of assets that all expect the same return
      expects that return. */
  lemma {:induction false} PortReturnOfEqualMeans(w: seq<real>, means: seq<real>, c: real)
    requires |w| == |means| && Simplex(w)
    requires forall i :: 0 <= i < |means| ==> means[i] == c
    ensures PortReturn(w, means) == c
  {
    DotConstant(w, means, c);
  }

  lemma {:induction false} DotConstant(w: seq<real>, means: seq<real>, c: real)
    requires |w| == |means|
    requires forall i :: 0 <= i < |means| ==> means[i] == c
    ensures Dot(w, means) == Times(Sum(w), c)
  {
    if w != [] {
      DotConstant(w[1..], means[1..], c);
      assert Dot(w, means) == w[0] * c + Times(Sum(w[1..]), c);
    }
  }

  /** negative_utility_function: minus (w . mu - 1/2 gamma sigma^2), with
      sigma = port_volatility = sqrt(w' Sigma w); NaN (None) when the
      variance is negative and has no square root. */
  function NegativeUtility(w: seq<real>, means: seq<real>, cov: seq<seq<real>>, gamma: real,
                           root: real -> real): (u: Option<real>)
    requires |w| == |means| && Square(cov, |w|)
    ensures u.Some? <==> 0.0 <= Quad(w, cov)
    ensures IsSqrt(root) && u.Some? ==>
              u.value == -(PortReturn(w, means) - 0.5 * gamma * Quad(w, cov))
  {
    match PortfolioRisk(w, cov, root)
    case None => None
    case Some(sigma) => Some(-(PortReturn(w, means) - 0.5 * gamma * Sq(sigma)))
  }

  /** With no risk aversion the utility is the expected return alone. */
  lemma RiskNeutralUtility(w: seq<real>, means: seq<real>, cov: seq<seq<real>>, root: real -> real)
    requires |w| == |means| && Square(cov, |w|) && IsSqrt(root) && 0.0 <= Quad(w, cov)
    ensures NegativeUtility(w, means, cov, 0.0, root) == Some(-PortReturn(w, means))
  {
  }

  /** More risk aversion never makes a portfolio more attractive: the
      negative utility grows with gamma. */
  lemma UtilityMonotoneInAversion(w: seq<real>, means: seq<real>, cov: seq<seq<real>>,
                                  g1: real, g2: real, root: real -> real)
    requires |w| == |means| && Square(cov, |w|) && IsSqrt(root) && 0.0 <= Quad(w, cov)
    requires g1 <= g2
    ensures NegativeUtility(w, means, cov, g1, root).value <= NegativeUtility(w, means, cov, g2, root).value
  {
    var q := Quad(w, cov);
    assert Times(g2 - g1, q) >= 0.0 by {
      if 0.0 < g2 - g1 && 0.0 < q {
        PositiveProduct(g2 - g1, q);
      }
    }
  }

  /** col.replace(" Returns", ""): every non-overlapping occurrence, left to
      right, removed. */
  function StripReturns(s: string): (r: string)
    ensures |r| <= |s|
  {
    if |s| >= 8 && s[..8] == " Returns" then StripReturns(s[8..])
    else if s == [] then []
    else [s[0]] + StripReturns(s[1..])
  }

  /** The asset names of the weight table. */
  function AssetNames(cols: seq<Column>): (names: seq<string>)
    ensures |names| == |cols|
    ensures forall j :: 0 <= j < |cols| ==> names[j] == StripReturns(cols[j].name)
  {
    seq(|cols|, j requires 0 <= j < |cols| => StripReturns(cols[j].name))
  }

  /** A name without spaces followed by " Returns" loses exactly the suffix. */
  lemma {:induction false} StripSuffix(b: string)
    requires ' ' !in b
    ensures StripReturns(b + " Returns") == b
  {
    var s := b + " Returns";
    if b == [] {
      assert s == " Returns";
      assert s[8..] == [];
    } else {
      assert s[..8][0] == b[0] != ' ';
      assert s[1..] == b[1..] + " Returns";
      StripSuffix(b[1..]);
    }
  }

  /** The combined asset classes appear in the weight table under their
      plain names. */
  lemma ClassAssetNames()
    ensures forall k :: 0 <= k < |ClassNames| ==> StripReturns(ClassNames[k]) == ClassBases[k]
  {
    forall k | 0 <= k < |ClassNames| ensures StripReturns(ClassNames[k]) == ClassBases[k] {
      assert ClassNames[k] == ClassBases[k] + " Returns";
      StripSuffix(ClassBases[k]);
    }
  }

  const ClassBases: seq<string> := ["Equity", "EquityESG", "Commodity", "CommodityESG", "Crypto", "Bonds"]

  /** The date comes strictly before m. */
  function EarlierThan(m: Date): Date -> bool
  {
    (d: Date) => Before(d, m)
  }

  /** The date lies in [m, next month start). */
  function InMonth(m: Date): Date -> bool
  {
    (d: Date) => !Before(d, m) && Before(d, NextMonthStart(m))
  }

  /** combined_returns.loc[index < month_start].tail(63): the positions of
      the last (at most) 63 rows dated before the month start. */
  function LookbackIdx(dates: seq<Date>, m: Date): (idx: seq<nat>)
    ensures forall k :: 0 <= k < |idx| ==> idx[k] < |dates|
  {
    var before := Where(dates, EarlierThan(m));
    var n := if |before| < LookbackRows then |before| else LookbackRows;
    before[|before| - n..]
  }

  /** combined_returns.loc[(index >= month_start) & (index < next_month_start)] */
  function WindowIdx(dates: seq<Date>, m: Date): (idx: seq<nat>)
    ensures forall k :: 0 <= k < |idx| ==> idx[k] < |dates|
  {
    Where(dates, InMonth(m))
  }

  /** The lookback holds at most 63 rows, all dated before the month start,
      in their order. */
  lemma LookbackBounds(dates: seq<Date>, m: Date)
    ensures var lb := LookbackIdx(dates, m);
            |lb| <= LookbackRows
            && (forall k :: 0 <= k < |lb| ==> Before(dates[lb[k]], m))
            && (forall k, l :: 0 <= k < l < |lb| ==> lb[k] < lb[l])
  {
    var before := Where(dates, EarlierThan(m));
    var lb := LookbackIdx(dates, m);
    SuffixEntries(before, |before| - |lb|);
  }

  lemma SuffixEntries(s: seq<nat>, cut: nat)
    requires cut <= |s|
    ensures forall k :: 0 <= k < |s| - cut ==> s[cut..][k] == s[cut + k]
  {
  }

  /** The lookback is the last rows before the month start: a row dated
      before it is left out only when 63 later ones are kept. */
  lemma LookbackIsLast(dates: seq<Date>, m: Date, t: nat)
    requires t < |dates| && Before(dates[t], m) && t !in LookbackIdx(dates, m)
    ensures |LookbackIdx(dates, m)| == LookbackRows && t < LookbackIdx(dates, m)[0]
  {
    var before := Where(dates, EarlierThan(m));
    var lb := LookbackIdx(dates, m);
    var cut := |before| - |lb|;
    assert EarlierThan(m)(dates[t]);
    var p :| 0 <= p < |before| && before[p] == t;
    if p >= cut {
      assert false;
    }
    assert before[cut] == lb[0];
  }

  /** Every row of a month's window lies in that calendar month's span. */
  lemma WindowBounds(dates: seq<Date>, m: Date)
    ensures forall k :: 0 <= k < |WindowIdx(dates, m)| ==>
              var d := dates[WindowIdx(dates, m)[k]];
              !Before(d, m) && Before(d, NextMonthStart(m))
  {
  }

  /** A month's replay window never meets its own lookback, and the
      windows of two different months never share a row. */
  lemma WindowsDisjoint(dates: seq<Date>, m: Date, m2: Date)
    requires m.day == 1 && m2.day == 1 && ValidDate(m) && ValidDate(m2)
    requires MonthIndex(m) < MonthIndex(m2)
    ensures forall t :: t in WindowIdx(dates, m) ==> t !in LookbackIdx(dates, m)
    ensures forall t :: t in WindowIdx(dates, m) ==> t !in WindowIdx(dates, m2)
  {
    LookbackBounds(dates, m);
    WindowBounds(dates, m);
    WindowBounds(dates, m2);
    LaterMonthStart(m, m2);
  }

  /** The next month start after m does not come after any later month start. */
  lemma LaterMonthStart(m: Date, m2: Date)
    requires m.day == 1 && m2.day == 1 && ValidDate(m) && ValidDate(m2)
    requires MonthIndex(m) < MonthIndex(m2)
    ensures !Before(m2, NextMonthStart(m))
  {
  }

  /** The optimiser: SLSQP on the lookback rows (mean and covariance
      annualised by 252), from x0, with risk aversion gamma, bounds [0, 1]
      and a full-investment constraint. Only its shape is relied on. */
  ghost predicate MvoSolver(solve: (seq<seq<Cell>>, seq<real>, real) -> seq<real>)
  {
    forall lookback, x0, gamma :: |solve(lookback, x0, gamma)| == |x0|
      && (0 < |x0| ==> Simplex(solve(lookback, x0, gamma)))
  }

  /** The recorded weights of one month: its start date and one weight per
      asset, later assets overwriting earlier ones of the same name. */
  datatype WeightRow = WeightRow(date: Date, weights: map<string, real>)

  function WeightDict(names: seq<string>, w: seq<real>): (d: map<string, real>)
    requires |names| == |w|
    ensures d.Keys == set i | 0 <= i < |names| :: names[i]
  {
    if names == [] then map[]
    else
      var n := |names| - 1;
      var front := WeightDict(names[..n], w[..n]);
      assert forall i :: 0 <= i < n ==> names[..n][i] == names[i];
      assert (set i | 0 <= i < |names| :: names[i]) == (set i | 0 <= i < n :: names[..n][i]) + {names[n]};
      front[names[n] := w[n]]
  }

  /** With distinct names each asset holds its own weight. */
  lemma {:induction false} WeightDictLookup(names: seq<string>, w: seq<real>)
    requires |names| == |w| && Distinct(names)
    ensures forall i :: 0 <= i < |names| ==> WeightDict(names, w)[names[i]] == w[i]
  {
    if names != [] {
      var n := |names| - 1;
      var front := WeightDict(names[..n], w[..n]);
      assert Distinct(names[..n]);
      WeightDictLookup(names[..n], w[..n]);
      WeightDictStep(names, w);
      forall i | 0 <= i < |names|
        ensures WeightDict(names, w)[names[i]] == w[i]
      {
        if i < n {
          assert names[..n][i] == names[i] && w[..n][i] == w[i];
          assert front[names[i]] == w[i];
        }
      }
    }
  }

  /** The last name's weight is written over the dictionary of the others. */
  lemma WeightDictStep(names: seq<string>, w: seq<real>)
    requires |names| == |w| && names != []
    ensures WeightDict(names, w) == WeightDict(names[..|names| - 1], w[..|names| - 1])[names[|names| - 1] := w[|names| - 1]]
  {
  }

  /** The optimiser's weights for month m: ZeroDivisionError without any
      asset, otherwise the solver started from equal weights. */
  function MonthWeights(f: Frame, m: Date, gamma: real, solve: (seq<seq<Cell>>, seq<real>, real) -> seq<real>)
    : (w: Result<seq<real>, string>)
    requires WellFormed(f) && MvoSolver(solve)
    ensures w.Success? <==> 0 < |f.columns|
    ensures w.Success? ==> |w.value| == |f.columns| && Simplex(w.value)
  {
    match EqualWeights(|f.columns|)
    case Failure(e) => Failure(e)
    case Success(x0) => Success(solve(CellRowsOf(Rows(f, LookbackIdx(f.dates, m))), x0, gamma))
  }

  /** One month of meanvar_portfolio: the replayed daily returns of the
      month's rows and the recorded starting weights. */
  function MonthResult(f: Frame, m: Date, gamma: real, solve: (seq<seq<Cell>>, seq<real>, real) -> seq<real>)
    : (r: Result<(seq<Cell>, WeightRow), string>)
    requires ReturnsFrame(f) && MvoSolver(solve)
    ensures r.Success? <==> 0 < |f.columns|
    ensures r.Success? ==> |r.value.0| == |WindowIdx(f.dates, m)| && r.value.1.date == m
    ensures r.Success? ==>
              r.value.0 == FrameReplay(MonthWeights(f, m, gamma, solve).value, MonthRows(f, m))
              && r.value.1.weights == WeightDict(AssetNames(f.columns), MonthWeights(f, m, gamma, solve).value)
  {
    match MonthWeights(f, m, gamma, solve)
    case Failure(e) => Failure(e)
    case Success(w) =>
      Success((FrameReplay(w, MonthRows(f, m)), WeightRow(m, WeightDict(AssetNames(f.columns), w))))
  }

  /** The rows of month m, every column kept: the frame the month's weights
      are replayed over. */
  function MonthRows(f: Frame, m: Date): (g: Frame)
    requires ReturnsFrame(f)
    ensures ReturnsFrame(g) && |g.columns| == |f.columns| && |g.dates| == |WindowIdx(f.dates, m)|
    ensures forall k :: 0 <= k < |g.dates| ==> InMonth(m)(g.dates[k])
  {
    RowsReturns(f, WindowIdx(f.dates, m));
    Rows(f, WindowIdx(f.dates, m))
  }

  function MonthStep(f: Frame, gamma: real, solve: (seq<seq<Cell>>, seq<real>, real) -> seq<real>)
    : Date -> Result<(seq<Cell>, WeightRow), string>
    requires ReturnsFrame(f) && MvoSolver(solve)
  {
    m => MonthResult(f, m, gamma, solve)
  }

  lemma MonthStepIsMonth(f: Frame, gamma: real, solve: (seq<seq<Cell>>, seq<real>, real) -> seq<real>, m: Date)
    requires ReturnsFrame(f) && MvoSolver(solve)
    ensures MonthStep(f, gamma, solve)(m) == MonthResult(f, m, gamma, solve)
  {
  }

  /** The two results of meanvar_portfolio from the outcome of its loop. */
  function Outputs(acc: Result<seq<(seq<Cell>, WeightRow)>, string>)
    : Result<(seq<seq<Cell>>, seq<WeightRow>), string>
  {
    match acc
    case Failure(e) => Failure(e)
    case Success(pairs) => Success((Firsts(pairs), Seconds(pairs)))
  }

  /** The body of the month loop. */
  method Month(f: Frame, m: Date, gamma: real, solve: (seq<seq<Cell>>, seq<real>, real) -> seq<real>)
    returns (r: Result<(seq<Cell>, WeightRow), string>)
    requires ReturnsFrame(f) && MvoSolver(solve)
    ensures r == MonthResult(f, m, gamma, solve)
  {
    var initial := EqualWeights(|f.columns|);
    if initial.Failure? {
      return Failure(initial.error);
    }
    var lookback := Rows(f, LookbackIdx(f.dates, m));
    var optimal := solve(CellRowsOf(lookback), initial.value, gamma);
    assert MonthWeights(f, m, gamma, solve) == Success(optimal);
    var expost := Rows(f, WindowIdx(f.dates, m));
    RowsReturns(f, WindowIdx(f.dates, m));
    CellRowsOfReturns(expost);
    var weightDict := WeightDict(AssetNames(f.columns), optimal);
    var monthReturns := ReplayCells(optimal, CellRowsOf(expost));
    r := Success((monthReturns, WeightRow(m, weightDict)));
  }

  /** meanvar_portfolio(combined_returns, risk_aversion) */
  method MeanVarPortfolio(f: Frame, gamma: real, solve: (seq<seq<Cell>>, seq<real>, real) -> seq<real>)
    returns (res: Result<(seq<seq<Cell>>, seq<WeightRow>), string>)
    requires ReturnsFrame(f) && MvoSolver(solve)
    ensures res == Outputs(Accumulate(MonthStep(f, gamma, solve), Schedule()))
  {
    res := MonthLoop(f, Schedule(), gamma, solve);
  }

  method MonthLoop(f: Frame, months: seq<Date>, gamma: real, solve: (seq<seq<Cell>>, seq<real>, real) -> seq<real>)
    returns (res: Result<(seq<seq<Cell>>, seq<WeightRow>), string>)
    requires ReturnsFrame(f) && MvoSolver(solve)
    ensures res == Outputs(Accumulate(MonthStep(f, gamma, solve), months))
  {
    var allPortfolioReturns: seq<seq<Cell>> := [];
    var allWeights: seq<WeightRow> := [];
    ghost var pairs: seq<(seq<Cell>, WeightRow)> := [];
    var step := MonthStep(f, gamma, solve);
    var i := 0;
    while i < |months|
      invariant 0 <= i <= |months|
      invariant Accumulate(step, months[..i]) == Success(pairs)
      invariant allPortfolioReturns == Firsts(pairs) && allWeights == Seconds(pairs)
    {
      var r := Month(f, months[i], gamma, solve);
      MonthStepIsMonth(f, gamma, solve, months[i]);
      if r.Failure? {
        AccumulateAbort(step, months, i);
        return Failure(r.error);
      }
      AccumulateSnoc(step, months, i);
      PairsSnoc(pairs, r.value);
      pairs := pairs + [r.value];
      allPortfolioReturns := allPortfolioReturns + [r.value.0];
      allWeights := allWeights + [r.value.1];
      i := i + 1;
    }
    assert months[..i] == months;
    res := Success((allPortfolioReturns, allWeights));
  }

  /** meanvar_portfolio fails (ZeroDivisionError) exactly when the frame has
      no asset. Otherwise it records 94 weight rows, row k dated at the k-th
      month start of the schedule and holding the optimiser's weights for
      that month, before any drift; and 94 return lists, list k holding the
      replay of those weights over the rows of month k. */
  lemma MeanVarShape(f: Frame, gamma: real, solve: (seq<seq<Cell>>, seq<real>, real) -> seq<real>)
    requires ReturnsFrame(f) && MvoSolver(solve)
    ensures var res := Outputs(Accumulate(MonthStep(f, gamma, solve), Schedule()));
            (res.Success? <==> 0 < |f.columns|)
            && (res.Success? ==>
                  |res.value.0| == 94 && |res.value.1| == 94
                  && forall k :: 0 <= k < 94 ==>
                       var m := Schedule()[k];
                       res.value.1[k].date == m
                       && res.value.1[k].weights
                          == WeightDict(AssetNames(f.columns), MonthWeights(f, m, gamma, solve).value)
                       && |res.value.0[k]| == |WindowIdx(f.dates, m)|
                       && res.value.0[k] == FrameReplay(MonthWeights(f, m, gamma, solve).value, MonthRows(f, m)))
  {
    var step := MonthStep(f, gamma, solve);
    var months := Schedule();
    ScheduleShape();
    AccumulateFailIff(step, months);
    forall k | 0 <= k < |months| ensures step(months[k]) == MonthResult(f, months[k], gamma, solve) {
      MonthStepIsMonth(f, gamma, solve, months[k]);
    }
    if 0 < |f.columns| {
      assert step(months[0]).Success?;
      forall k | 0 <= k < |months| ensures Accumulate(step, months).value[k] == step(months[k]).value {
        AccumulateEntry(step, months, k);
      }
    } else {
      assert step(months[0]).Failure?;
    }
  }

  /** With distinct asset names, the weight row of a month holds the
      optimiser's weight of every asset under its name. */
  lemma WeightRowValues(f: Frame, m: Date, gamma: real, solve: (seq<seq<Cell>>, seq<real>, real) -> seq<real>)
    requires ReturnsFrame(f) && MvoSolver(solve) && 0 < |f.columns|
    requires Distinct(AssetNames(f.columns))
    ensures var names, w := AssetNames(f.columns), MonthWeights(f, m, gamma, solve).value;
            forall j :: 0 <= j < |names| ==> MonthResult(f, m, gamma, solve).value.1.weights[names[j]] == w[j]
  {
    WeightDictLookup(AssetNames(f.columns), MonthWeights(f, m, gamma, solve).value);
  }

  /** riskscore_to_aversion: the risk-aversion coefficient of a risk score
      from 0 to 10; KeyError for any other score. */
  function RiskAversion(score: int): (gamma: Result<real, string>)
    ensures gamma.Success? <==> 0 <= score <= 10
  {
    if score == 0 then Success(200.0)
    else if score == 1 then Success(130.0)
    else if score == 2 then Success(80.0)
    else if score == 3 then Success(50.0)
    else if score == 4 then Success(30.0)
    else if score == 5 then Success(20.0)
    else if score == 6 then Success(10.0)
    else if score == 7 then Success(5.0)
    else if score == 8 then Success(1.0)
    else if score == 9 then Success(0.5)
    else if score == 10 then Success(0.0)
    else Failure("KeyError")
  }

  /** A higher risk score always means strictly less risk aversion, from 200
      at score 0 down to 0 at score 10, never negative. */
  lemma RiskAversionDecreasing(s1: int, s2: int)
    requires 0 <= s1 < s2 <= 10
    ensures RiskAversion(s2).value < RiskAversion(s1).value
    ensures RiskAversion(0).value == 200.0 && RiskAversion(10).value == 0.0
    ensures 0.0 <= RiskAversion(s2).value
  {
  }
}
