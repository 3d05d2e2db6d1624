/** The drift-rebalancing replay shared by the ERC and mean-variance
    backtests: day t earns p = w . r_t, then every weight moves to
    w_i (1 + r_i) / (1 + p), the buy-and-hold value share of asset i. */
module Drift {
  import opened LinAlg

  /** One day's returns for n assets, each strictly above -100%
      (a positive price stays positive). */
  predicate ReturnRow(r: seq<real>, n: nat)
  {
    |r| == n && forall i :: 0 <= i < n ==> -1.0 < r[i]
  }

  /** A block of daily return rows for n assets. */
  predicate Conforms(rows: seq<seq<real>>, n: nat)
  {
    forall t :: 0 <= t < |rows| ==> ReturnRow(rows[t], n)
  }

  /** One day of drift: every weight grown by its asset's return, divided by
      the portfolio's gross return 1 + w . r. The new weights are again
      long-only and fully invested: they are the assets' shares of the
      portfolio's value at the end of the day. */
  function DriftStep(w: seq<real>, r: seq<real>): (w': seq<real>)
    requires Simplex(w) && ReturnRow(r, |w|)
    ensures |w'| == |w| && Simplex(w')
    ensures 0.0 < Sum(Regrow(w, r)) && w' == Normalize(Regrow(w, r))
  {
    var p := Dot(w, r);
    GrossValuePositive(w, r);
    SumRegrow(w, r);
    RegrowSigns(w, r);
    NormalizeSimplex(Regrow(w, r));
    seq(|w|, i requires 0 <= i < |w| => Regrow(w, r)[i] / (1.0 + p))
  }

  /** The weights in force after drifting through every row of rows. */
  function DriftAll(w0: seq<real>, rows: seq<seq<real>>): (w: seq<real>)
    requires Simplex(w0) && Conforms(rows, |w0|)
    ensures |w| == |w0| && Simplex(w)
  {
    if rows == [] then w0
    else DriftStep(DriftAll(w0, rows[..|rows| - 1]), rows[|rows| - 1])
  }

  /** The replayed daily portfolio returns: the replay of the earlier days,
      then the last day's returns weighted by the weights drifted so far. */
  function ReplaySpec(w0: seq<real>, rows: seq<seq<real>>): (rets: seq<real>)
    requires Simplex(w0) && Conforms(rows, |w0|)
    ensures |rets| == |rows|
  {
    if rows == [] then []
    else
      var pre := rows[..|rows| - 1];
      ReplaySpec(w0, pre) + [Dot(DriftAll(w0, pre), rows[|rows| - 1])]
  }

  /** Day t of the replay earns the weights drifted through days 0..t-1
      dotted with day t's returns, whatever comes after day t. */
  lemma {:induction false} ReplayEntry(w0: seq<real>, rows: seq<seq<real>>, t: nat)
    requires Simplex(w0) && Conforms(rows, |w0|) && t < |rows|
    ensures ReplaySpec(w0, rows)[t] == Dot(DriftAll(w0, rows[..t]), rows[t])
    decreases |rows|
  {
    var pre := rows[..|rows| - 1];
    if t < |rows| - 1 {
      assert pre[..t] == rows[..t];
      ReplayEntry(w0, pre, t);
    }
  }

  /** A long-only fully invested portfolio never loses more than 100% in a day. */
  lemma PortfolioReturnAboveMinusOne(w0: seq<real>, rows: seq<seq<real>>, t: nat)
    requires Simplex(w0) && Conforms(rows, |w0|) && t < |rows|
    ensures -1.0 < ReplaySpec(w0, rows)[t]
  {
    ReplayEntry(w0, rows, t);
    GrossValuePositive(DriftAll(w0, rows[..t]), rows[t]);
  }

  /** What buying every asset at its initial weight and never trading holds
      after the rows, per unit of starting capital. */
  function Holdings(w0: seq<real>, rows: seq<seq<real>>): (h: seq<real>)
    requires Conforms(rows, |w0|)
    ensures |h| == |w0|
  {
    if rows == [] then w0
    else Regrow(Holdings(w0, rows[..|rows| - 1]), rows[|rows| - 1])
  }

  /** Buy-and-hold in closed form: asset i's holding is its initial weight
      times its compounded gross return. */
  lemma {:induction false} HoldingsClosedForm(w0: seq<real>, rows: seq<seq<real>>, i: nat)
    requires Conforms(rows, |w0|) && i < |w0|
    ensures Holdings(w0, rows)[i] == w0[i] * Gross(ColumnOf(rows, i))
    decreases |rows|
  {
    if rows == [] {
      assert ColumnOf(rows, i) == [];
    } else {
      var pre, r := rows[..|rows| - 1], rows[|rows| - 1];
      HoldingsClosedForm(w0, pre, i);
      assert ColumnOf(rows, i) == ColumnOf(pre, i) + [r[i]];
      GrossSnoc(ColumnOf(pre, i), r[i]);
      GrowLinear(w0[i], Gross(ColumnOf(pre, i)), r[i]);
    }
  }

  lemma {:induction false} HoldingsNonNegative(w0: seq<real>, rows: seq<seq<real>>)
    requires Simplex(w0) && Conforms(rows, |w0|)
    ensures forall i :: 0 <= i < |w0| ==> 0.0 <= Holdings(w0, rows)[i]
    decreases |rows|
  {
    if rows != [] {
      var pre := rows[..|rows| - 1];
      HoldingsNonNegative(w0, pre);
      RegrowSigns(Holdings(w0, pre), rows[|rows| - 1]);
    }
  }

  /** Drifting normalised holdings for a day gives the normalised regrown
      holdings. */
  lemma DriftOfNormalized(h: seq<real>, r: seq<real>)
    requires 0.0 < Sum(h) && forall i :: 0 <= i < |h| ==> 0.0 <= h[i]
    requires ReturnRow(r, |h|)
    ensures Simplex(Normalize(h))
    ensures 0.0 < Sum(Regrow(h, r))
    ensures DriftStep(Normalize(h), r) == Normalize(Regrow(h, r))
  {
    NormalizeSimplex(h);
    GrossValuePositive(h, r);
    SumRegrow(h, r);
    RegrowScaled(h, r, Sum(h), Normalize(h));
    NormalizeScaled(Regrow(h, r), Sum(h), Regrow(Normalize(h), r));
  }

  /** Drift is buy-and-hold: after any number of days the replay's weights
      are the buy-and-hold holdings normalised to sum to one. */
  lemma {:induction false} DriftIsBuyAndHold(w0: seq<real>, rows: seq<seq<real>>)
    requires Simplex(w0) && Conforms(rows, |w0|)
    ensures 0.0 < Sum(Holdings(w0, rows))
    ensures DriftAll(w0, rows) == Normalize(Holdings(w0, rows))
    decreases |rows|
  {
    if rows == [] {
      NormalizeSimplexFixed(w0);
    } else {
      var pre, r := rows[..|rows| - 1], rows[|rows| - 1];
      DriftIsBuyAndHold(w0, pre);
      HoldingsNonNegative(w0, pre);
      DriftOfNormalized(Holdings(w0, pre), r);
    }
  }

  /** The arithmetic of one day of wealth: total s earning d, i.e. the return
      p = d / s, grows to s + d. */
  lemma WealthArithmetic(s: real, d: real, p: real)
    requires 0.0 < s && p == d / s
    ensures Grow(s, p) == s + d
  {
  }

  /** The replayed daily returns compound to the buy-and-hold wealth: drift
      rebalancing never trades. */
  lemma {:induction false} ReplayCompoundsToHoldings(w0: seq<real>, rows: seq<seq<real>>)
    requires Simplex(w0) && Conforms(rows, |w0|)
    ensures Gross(ReplaySpec(w0, rows)) == Sum(Holdings(w0, rows))
    decreases |rows|
  {
    if rows == [] {
      assert GrowthFactors([]) == [];
    } else {
      var pre, r := rows[..|rows| - 1], rows[|rows| - 1];
      var h := Holdings(w0, pre);
      ReplayCompoundsToHoldings(w0, pre);
      DriftIsBuyAndHold(w0, pre);
      GrossSnoc(ReplaySpec(w0, pre), Dot(DriftAll(w0, pre), r));
      DotDivided(h, Sum(h), Normalize(h), r);
      WealthArithmetic(Sum(h), Dot(h, r), Dot(Normalize(h), r));
      SumRegrow(h, r);
    }
  }

  /** The day loop of erc_portfolio and meanvar_portfolio: record w . r_t,
      then drift the weights unless it is the period's last day. */
  method Replay(w0: seq<real>, rows: seq<seq<real>>) returns (rets: seq<real>)
    requires Simplex(w0) && Conforms(rows, |w0|)
    ensures rets == ReplaySpec(w0, rows)
  {
    var weights := w0;
    rets := [];
    var t := 0;
    while t < |rows|
      invariant 0 <= t <= |rows|
      invariant rets == ReplaySpec(w0, rows[..t])
      invariant t < |rows| ==> weights == DriftAll(w0, rows[..t])
    {
      var r := rows[t];
      var p := Dot(weights, r);
      ReplayPrefix(w0, rows, t);
      rets := rets + [p];
      if t < |rows| - 1 {
        GrossValuePositive(weights, r);
        ghost var before := weights;
        weights := seq(|weights|, i requires 0 <= i < |weights| => Regrow(weights, r)[i] / (1.0 + p));
        assert weights == DriftStep(before, r);
      }
      t := t + 1;
    }
    assert rows[..t] == rows;
  }

  /** The replay and the drift of one more day extend those of the days
      before it. */
  lemma ReplayPrefix(w0: seq<real>, rows: seq<seq<real>>, t: nat)
    requires Simplex(w0) && Conforms(rows, |w0|) && t < |rows|
    ensures Conforms(rows[..t], |w0|) && Conforms(rows[..t + 1], |w0|)
    ensures ReplaySpec(w0, rows[..t + 1]) == ReplaySpec(w0, rows[..t]) + [Dot(DriftAll(w0, rows[..t]), rows[t])]
    ensures DriftAll(w0, rows[..t + 1]) == DriftStep(DriftAll(w0, rows[..t]), rows[t])
  {
    assert rows[..t + 1][..t] == rows[..t];
    assert rows[..t + 1][t] == rows[t];
  }
}
