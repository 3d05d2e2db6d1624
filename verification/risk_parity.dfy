/** The risk-parity algebra of the ERC optimisation: portfolio risk, each
    asset's risk contribution w_i (C w)_i / sigma, the objective the solver
    minimises (1000 times the squared dispersion of the contributions), and
    the sample covariance matrix the contributions are measured under.
    A missing result (None) is numpy's NaN or inf. */
module RiskParity {
  import opened Wrappers
  import opened LinAlg

  /** A square root: what np.sqrt computes on a non-negative argument. */
  ghost predicate IsSqrt(root: real -> real)
  {
    forall x :: 0.0 <= x ==> 0.0 <= root(x) && root(x) * root(x) == x
  }

  /** A covariance matrix for n assets. */
  predicate Square(cov: seq<seq<real>>, n: nat)
  {
    |cov| == n && Rectangular(cov, n)
  }

  /** portfolio_risk: sqrt(w' C w); NaN when the variance is negative. */
  function PortfolioRisk(w: seq<real>, cov: seq<seq<real>>, root: real -> real): (sigma: Option<real>)
    requires Square(cov, |w|)
    ensures sigma.Some? <==> 0.0 <= Quad(w, cov)
    ensures IsSqrt(root) && sigma.Some? ==> 0.0 <= sigma.value && sigma.value * sigma.value == Quad(w, cov)
  {
    if Quad(w, cov) < 0.0 then None else Some(root(Quad(w, cov)))
  }

  /** w_i times the marginal contribution m_i. */
  function Contribution(wi: real, mi: real): real
  {
    wi * mi
  }

  /** risk_contribution: the marginal contributions C w / sigma, each times
      its weight. With no asset the result is empty. With a zero (or
      negative) variance every entry divides by zero (or is NaN), so the
      whole vector is missing. */
  function RiskContributions(w: seq<real>, cov: seq<seq<real>>, root: real -> real): (rc: Option<seq<real>>)
    requires Square(cov, |w|) && IsSqrt(root)
    ensures rc.Some? <==> |w| == 0 || 0.0 < Quad(w, cov)
    ensures rc.Some? ==> |rc.value| == |w|
  {
    if |w| == 0 then Some([])
    else if Quad(w, cov) <= 0.0 then None
    else
      var sigma := root(Quad(w, cov));
      PositiveRoot(Quad(w, cov), sigma);
      var marginal := seq(|w|, i requires 0 <= i < |w| => MatVec(cov, w)[i] / sigma);
      Some(seq(|w|, i requires 0 <= i < |w| => Contribution(w[i], marginal[i])))
  }

  /** The contributions add up to the portfolio risk: sum_i w_i (C w)_i / sigma
      == sigma whenever sigma^2 == w' C w > 0. */
  lemma RiskContributionsSumToRisk(w: seq<real>, cov: seq<seq<real>>, root: real -> real)
    requires Square(cov, |w|) && IsSqrt(root) && 0.0 < Quad(w, cov)
    ensures RiskContributions(w, cov, root).Some?
    ensures Sum(RiskContributions(w, cov, root).value) == PortfolioRisk(w, cov, root).value
  {
    var v := Quad(w, cov);
    var sigma := root(v);
    assert 0.0 <= sigma && sigma * sigma == v;
    var mv := MatVec(cov, w);
    var marginal := seq(|w|, i requires 0 <= i < |w| => mv[i] / sigma);
    var rc := RiskContributions(w, cov, root).value;
    PositiveRoot(v, sigma);
    assert forall i :: 0 <= i < |w| ==> rc[i] == Contribution(w[i], marginal[i]);
    ContributionsAreDot(w, marginal, rc);
    DotDividedRight(w, mv, sigma, marginal);
    RatioOfSquare(v, sigma);
  }

  lemma PositiveRoot(v: real, sigma: real)
    requires 0.0 < v && 0.0 <= sigma && sigma * sigma == v
    ensures 0.0 < sigma
  {
    if sigma == 0.0 {
      assert false;
    }
  }

  lemma RatioOfSquare(v: real, sigma: real)
    requires 0.0 < sigma && sigma * sigma == v
    ensures v / sigma == sigma
  {
  }

  lemma {:induction false} ContributionsAreDot(w: seq<real>, m: seq<real>, rc: seq<real>)
    requires |w| == |m| == |rc|
    requires forall i :: 0 <= i < |w| ==> rc[i] == Contribution(w[i], m[i])
    ensures Sum(rc) == Dot(w, m)
  {
    if w != [] {
      ContributionsAreDot(w[1..], m[1..], rc[1..]);
    }
  }

  /** Dot product with a vector divided by a common nonzero denominator. */
  lemma {:induction false} DotDividedRight(a: seq<real>, b: seq<real>, d: real, t: seq<real>)
    requires d != 0.0 && |a| == |b| == |t|
    requires forall i :: 0 <= i < |b| ==> t[i] == b[i] / d
    ensures Dot(a, t) == Dot(a, b) / d
  {
    if a != [] {
      DotDividedRight(a[1..], b[1..], d, t[1..]);
      ProductOfQuotient(a[0], b[0], d, t[0]);
    }
  }

  lemma ProductOfQuotient(a: real, b: real, d: real, t: real)
    requires d != 0.0 && t == b / d
    ensures a * t == (a * b) / d
  {
  }

  /** a times b, kept as one term so that a square's factors are matched
      by name. */
  function Times(a: real, b: real): real
  {
    a * b
  }

  /** x squared. */
  function Sq(x: real): real
  {
    Times(x, x)
  }

  /** np.mean; NaN for no entries, which only ever meets an empty sum. */
  function Mean(s: seq<real>): real
  {
    if s == [] then 0.0 else Sum(s) / (|s| as real)
  }

  /** np.sum((rc - np.mean(rc)) ** 2) */
  function Dispersion(rc: seq<real>): real
  {
    Sum(SquaredDeviations(rc))
  }

  function SquaredDeviations(rc: seq<real>): (d: seq<real>)
    ensures |d| == |rc|
  {
    seq(|rc|, i requires 0 <= i < |rc| => Sq(rc[i] - Mean(rc)))
  }

  /** objective_function: 1000 times the dispersion of the risk
      contributions; NaN when they are. */
  function Objective(w: seq<real>, cov: seq<seq<real>>, root: real -> real): (f: Option<real>)
    requires Square(cov, |w|) && IsSqrt(root)
    ensures f.Some? <==> RiskContributions(w, cov, root).Some?
    ensures f.Some? ==> f.value == 1000.0 * Dispersion(RiskContributions(w, cov, root).value)
  {
    match RiskContributions(w, cov, root)
    case None => None
    case Some(rc) => Some(1000.0 * Dispersion(rc))
  }

  /** All entries of s are the same. */
  predicate AllEqual(s: seq<real>)
  {
    forall i, j :: 0 <= i < |s| && 0 <= j < |s| ==> s[i] == s[j]
  }

  lemma SqSigns(x: real)
    ensures 0.0 <= Sq(x)
    ensures Sq(x) == 0.0 <==> x == 0.0
  {
    if x < 0.0 {
      PositiveProduct(-x, -x);
      assert Times(-x, -x) == Times(x, x);
    } else if 0.0 < x {
      PositiveProduct(x, x);
    }
  }

  lemma PositiveProduct(a: real, b: real)
    requires 0.0 < a && 0.0 < b
    ensures 0.0 < Times(a, b)
  {
  }

  /** A sequence of equal entries sums to its length times the first. */
  lemma {:induction false} SumOfEqual(s: seq<real>)
    requires s != [] && AllEqual(s)
    ensures Sum(s) == (|s| as real) * s[0]
  {
    if |s| > 1 {
      SumOfEqual(s[1..]);
    }
  }

  lemma {:induction false} SumOfZeros(s: seq<real>)
    requires forall i :: 0 <= i < |s| ==> s[i] == 0.0
    ensures Sum(s) == 0.0
  {
    if s != [] {
      SumOfZeros(s[1..]);
    }
  }

  lemma MeanOfEqual(s: seq<real>)
    requires s != [] && AllEqual(s)
    ensures Mean(s) == s[0]
  {
    SumOfEqual(s);
    LengthCancels(|s| as real, s[0]);
  }

  lemma LengthCancels(n: real, c: real)
    requires 0.0 < n
    ensures (n * c) / n == c
  {
  }

  /** The objective is never negative, and vanishes exactly when every
      asset contributes the same risk: equal risk contribution is its zero. */
  lemma DispersionZeroIffEqual(rc: seq<real>)
    ensures 0.0 <= Dispersion(rc)
    ensures Dispersion(rc) == 0.0 <==> AllEqual(rc)
  {
    var d := SquaredDeviations(rc);
    forall i | 0 <= i < |rc| ensures 0.0 <= d[i] {
      SqSigns(rc[i] - Mean(rc));
    }
    SumNonNegative(d);
    if Dispersion(rc) == 0.0 {
      SumZeroOfNonNegative(d);
      forall i | 0 <= i < |rc| ensures rc[i] == Mean(rc) {
        assert d[i] == Sq(rc[i] - Mean(rc)) == 0.0;
        SqSigns(rc[i] - Mean(rc));
      }
    }
    if AllEqual(rc) && rc != [] {
      MeanOfEqual(rc);
      forall i | 0 <= i < |rc| ensures d[i] == 0.0 {
        SqSigns(rc[i] - Mean(rc));
      }
      SumOfZeros(d);
    }
  }

  lemma ObjectiveZeroIffEqualContributions(w: seq<real>, cov: seq<seq<real>>, root: real -> real)
    requires Square(cov, |w|) && IsSqrt(root) && Objective(w, cov, root).Some?
    ensures 0.0 <= Objective(w, cov, root).value
    ensures Objective(w, cov, root).value == 0.0 <==> AllEqual(RiskContributions(w, cov, root).value)
  {
    DispersionZeroIffEqual(RiskContributions(w, cov, root).value);
  }

  function CoDeviation(x: seq<real>, y: seq<real>): (p: seq<real>)
    requires |x| == |y|
    ensures |p| == |x|
  {
    seq(|x|, t requires 0 <= t < |x| => (x[t] - Mean(x)) * (y[t] - Mean(y)))
  }

  /** The sample covariance of two equally long series (divisor n - 1). */
  function Covariance(x: seq<real>, y: seq<real>): real
    requires |x| == |y| && 2 <= |x|
  {
    Sum(CoDeviation(x, y)) / ((|x| - 1) as real)
  }

  /** DataFrame.cov() of a dense block of rows over n columns: with no column
      an empty matrix; with fewer than two rows every entry is NaN. */
  function SampleCov(rows: seq<seq<real>>, n: nat): (cov: Option<seq<seq<real>>>)
    requires forall t :: 0 <= t < |rows| ==> |rows[t]| == n
    ensures cov.Some? <==> n == 0 || 2 <= |rows|
    ensures cov.Some? ==> Square(cov.value, n)
    ensures cov.Some? && 0 < n ==> forall j, k :: 0 <= j < n && 0 <= k < n ==>
              cov.value[j][k] == Covariance(ColumnOf(rows, j), ColumnOf(rows, k))
  {
    if n == 0 then Some([])
    else if |rows| < 2 then None
    else
      Some(seq(n, j requires 0 <= j < n =>
        seq(n, k requires 0 <= k < n => Covariance(ColumnOf(rows, j), ColumnOf(rows, k)))))
  }

  /** The sample covariance matrix is symmetric. */
  lemma SampleCovSymmetric(rows: seq<seq<real>>, n: nat)
    requires forall t :: 0 <= t < |rows| ==> |rows[t]| == n
    requires SampleCov(rows, n).Some?
    ensures forall j, k :: 0 <= j < n && 0 <= k < n ==>
              SampleCov(rows, n).value[j][k] == SampleCov(rows, n).value[k][j]
  {
    forall j, k | 0 <= j < n && 0 <= k < n
      ensures SampleCov(rows, n).value[j][k] == SampleCov(rows, n).value[k][j]
    {
      var x, y := ColumnOf(rows, j), ColumnOf(rows, k);
      assert CoDeviation(x, y) == CoDeviation(y, x);
    }
  }
}
