/** The vector algebra numpy provides to the portfolio code: sums, dot
    products, matrix-vector products, quadratic forms and products, on exact
    reals. */
module LinAlg {

  /** np.sum */
  function Sum(s: seq<real>): real
  {
    if s == [] then 0.0 else s[0] + Sum(s[1..])
  }

  /** np.prod */
  function Prod(s: seq<real>): real
  {
    if s == [] then 1.0 else s[0] * Prod(s[1..])
  }

  /** np.dot of two vectors of the same length */
  function Dot(a: seq<real>, b: seq<real>): real
    requires |a| == |b|
  {
    if a == [] then 0.0 else a[0] * b[0] + Dot(a[1..], b[1..])
  }

  /** Column j of a block of rows: the returns of asset j, day by day. */
  function ColumnOf(rows: seq<seq<real>>, j: nat): (col: seq<real>)
    requires forall t :: 0 <= t < |rows| ==> j < |rows[t]|
    ensures |col| == |rows| && forall t :: 0 <= t < |rows| ==> col[t] == rows[t][j]
  {
    seq(|rows|, t requires 0 <= t < |rows| => rows[t][j])
  }

  /** A matrix whose every row has width n. */
  predicate Rectangular(m: seq<seq<real>>, n: nat)
  {
    forall i :: 0 <= i < |m| ==> |m[i]| == n
  }

  /** np.dot(cov, w): row i is the dot product of row i of m with w. */
  function MatVec(m: seq<seq<real>>, w: seq<real>): (v: seq<real>)
    requires Rectangular(m, |w|)
    ensures |v| == |m|
  {
    seq(|m|, i requires 0 <= i < |m| => Dot(m[i], w))
  }

  /** w' m w, the variance of a portfolio with weights w under covariance m. */
  function Quad(w: seq<real>, m: seq<seq<real>>): real
    requires |m| == |w| && Rectangular(m, |w|)
  {
    Dot(w, MatVec(m, w))
  }

  /** Long-only, fully invested weights: what the solver's bounds (0 <= w_i <= 1)
      and equality constraint (sum w_i == 1) describe. */
  predicate Simplex(w: seq<real>)
  {
    (forall i :: 0 <= i < |w| ==> 0.0 <= w[i]) && Sum(w) == 1.0
  }

  lemma {:induction false} SumAppend(a: seq<real>, b: seq<real>)
    ensures Sum(a + b) == Sum(a) + Sum(b)
  {
    if a == [] {
      assert a + b == b;
    } else {
      assert (a + b)[1..] == a[1..] + b;
      SumAppend(a[1..], b);
    }
  }

  lemma {:induction false} ProdAppend(a: seq<real>, b: seq<real>)
    ensures Prod(a + b) == Prod(a) * Prod(b)
  {
    if a == [] {
      assert a + b == b;
    } else {
      assert (a + b)[1..] == a[1..] + b;
      ProdAppend(a[1..], b);
    }
  }

  /** Summing a pointwise quotient by a common nonzero denominator. */
  lemma {:induction false} SumDivided(a: seq<real>, d: real, t: seq<real>)
    requires d != 0.0 && |t| == |a|
    requires forall i :: 0 <= i < |a| ==> t[i] == a[i] / d
    ensures Sum(t) == Sum(a) / d
  {
    if a != [] {
      SumDivided(a[1..], d, t[1..]);
    }
  }

  /** Summing a pointwise multiple by a common factor. */
  lemma {:induction false} SumScaled(a: seq<real>, c: real, t: seq<real>)
    requires |t| == |a|
    requires forall i :: 0 <= i < |a| ==> t[i] == c * a[i]
    ensures Sum(t) == c * Sum(a)
  {
    if a != [] {
      SumScaled(a[1..], c, t[1..]);
    }
  }

  /** The dot product is the sum of the pointwise products. */
  lemma {:induction false} DotIsSumOfProducts(a: seq<real>, b: seq<real>, t: seq<real>)
    requires |a| == |b| == |t|
    requires forall i :: 0 <= i < |a| ==> t[i] == a[i] * b[i]
    ensures Sum(t) == Dot(a, b)
  {
    if a != [] {
      DotIsSumOfProducts(a[1..], b[1..], t[1..]);
    }
  }

  lemma {:induction false} SumNonNegative(s: seq<real>)
    requires forall i :: 0 <= i < |s| ==> 0.0 <= s[i]
    ensures 0.0 <= Sum(s)
  {
    if s != [] {
      SumNonNegative(s[1..]);
    }
  }

  /** A sum of non-negative terms vanishes only when every term does. */
  lemma {:induction false} SumZeroOfNonNegative(s: seq<real>)
    requires forall i :: 0 <= i < |s| ==> 0.0 <= s[i]
    requires Sum(s) == 0.0
    ensures forall i :: 0 <= i < |s| ==> s[i] == 0.0
  {
    if s != [] {
      SumNonNegative(s[1..]);
      SumZeroOfNonNegative(s[1..]);
      forall i | 0 <= i < |s| ensures s[i] == 0.0 {
        if i > 0 { assert s[i] == s[1..][i - 1]; }
      }
    }
  }

  /** The value of the quadratic form as a sum over rows: w' m w == sum_i w_i (m w)_i. */
  lemma QuadAsSum(w: seq<real>, m: seq<seq<real>>, t: seq<real>)
    requires |m| == |w| && Rectangular(m, |w|) && |t| == |w|
    requires forall i :: 0 <= i < |w| ==> t[i] == w[i] * MatVec(m, w)[i]
    ensures Sum(t) == Quad(w, m)
  {
    DotIsSumOfProducts(w, MatVec(m, w), t);
  }

  /** The gross return factors 1 + r of a return sequence. */
  function GrowthFactors(rs: seq<real>): (f: seq<real>)
    ensures |f| == |rs|
  {
    seq(|rs|, i requires 0 <= i < |rs| => 1.0 + rs[i])
  }

  /** Compounded gross return of a return sequence: (1 + r_0)(1 + r_1)...;
      1 for the empty sequence. */
  function Gross(rs: seq<real>): real
  {
    Prod(GrowthFactors(rs))
  }

  /** Compounding over two consecutive periods multiplies their gross returns. */
  lemma GrossAppend(a: seq<real>, b: seq<real>)
    ensures Gross(a + b) == Gross(a) * Gross(b)
  {
    assert GrowthFactors(a + b) == GrowthFactors(a) + GrowthFactors(b);
    ProdAppend(GrowthFactors(a), GrowthFactors(b));
  }

  /** One more period grows the compounded gross return by that period's return. */
  lemma GrossSnoc(a: seq<real>, x: real)
    ensures Gross(a + [x]) == Grow(Gross(a), x)
  {
    GrossAppend(a, [x]);
    assert GrowthFactors([x]) == [1.0 + x];
    assert Prod([1.0 + x]) == (1.0 + x) * Prod([]);
  }

  /** Dot product with a vector divided by a common nonzero denominator. */
  lemma {:induction false} DotDivided(a: seq<real>, d: real, t: seq<real>, b: seq<real>)
    requires d != 0.0 && |t| == |a| == |b|
    requires forall i :: 0 <= i < |a| ==> t[i] == a[i] / d
    ensures Dot(t, b) == Dot(a, b) / d
  {
    if a != [] {
      DotDivided(a[1..], d, t[1..], b[1..]);
      assert t[0] * b[0] == (a[0] * b[0]) / d;
    }
  }

  /** Returns above -100% compound to a positive gross return. */
  lemma {:induction false} GrossPositive(rs: seq<real>)
    requires forall i :: 0 <= i < |rs| ==> -1.0 < rs[i]
    ensures 0.0 < Gross(rs)
  {
    ProdPositive(GrowthFactors(rs));
  }

  lemma {:induction false} ProdPositive(s: seq<real>)
    requires forall i :: 0 <= i < |s| ==> 0.0 < s[i]
    ensures 0.0 < Prod(s)
  {
    if s != [] {
      ProdPositive(s[1..]);
      assert 0.0 < s[0] * Prod(s[1..]);
    }
  }

  /** A holding worth a grows to a (1 + q) over a period with return q. */
  function Grow(a: real, q: real): real
  {
    a * (1.0 + q)
  }

  /** Every holding of w grown by its own return in r. */
  function Regrow(w: seq<real>, r: seq<real>): (v: seq<real>)
    requires |r| == |w|
    ensures |v| == |w|
  {
    seq(|w|, i requires 0 <= i < |w| => Grow(w[i], r[i]))
  }

  /** The regrown total is the old total plus the period's gain w . r. */
  lemma {:induction false} SumRegrow(w: seq<real>, r: seq<real>)
    requires |w| == |r|
    ensures Sum(Regrow(w, r)) == Sum(w) + Dot(w, r)
  {
    if w != [] {
      assert Regrow(w, r)[1..] == Regrow(w[1..], r[1..]);
      SumRegrow(w[1..], r[1..]);
    }
  }

  /** A return above -100% keeps a non-negative holding non-negative and a
      positive one positive. */
  lemma GrowSigns(a: real, q: real)
    requires 0.0 <= a && -1.0 < q
    ensures 0.0 <= Grow(a, q)
    ensures 0.0 < a ==> 0.0 < Grow(a, q)
  {
    assert 0.0 <= a * q + a;
    if 0.0 < a {
      assert 0.0 < a * q + a;
    }
  }

  lemma RegrowSigns(w: seq<real>, r: seq<real>)
    requires |w| == |r|
    requires forall i :: 0 <= i < |w| ==> 0.0 <= w[i]
    requires forall i :: 0 <= i < |r| ==> -1.0 < r[i]
    ensures forall i :: 0 <= i < |w| ==> 0.0 <= Regrow(w, r)[i]
    ensures forall i :: 0 <= i < |w| ==> 0.0 < w[i] ==> 0.0 < Regrow(w, r)[i]
  {
    forall i | 0 <= i < |w|
      ensures 0.0 <= Regrow(w, r)[i] && (0.0 < w[i] ==> 0.0 < Regrow(w, r)[i])
    {
      GrowSigns(w[i], r[i]);
    }
  }

  /** Non-negative terms t that are positive wherever w is: t's total is
      non-negative, and positive when w's total is. */
  lemma {:induction false} SumDominates(w: seq<real>, t: seq<real>)
    requires |w| == |t|
    requires forall i :: 0 <= i < |w| ==> 0.0 <= t[i]
    requires forall i :: 0 <= i < |w| ==> 0.0 < w[i] ==> 0.0 < t[i]
    ensures 0.0 <= Sum(t)
    ensures 0.0 < Sum(w) ==> 0.0 < Sum(t)
  {
    if w != [] {
      SumDominates(w[1..], t[1..]);
    }
  }

  /** Long-only holdings with a positive total keep a positive total after a
      period in which every return is above -100%. */
  lemma GrossValuePositive(w: seq<real>, r: seq<real>)
    requires |w| == |r|
    requires forall i :: 0 <= i < |w| ==> 0.0 <= w[i]
    requires forall i :: 0 <= i < |r| ==> -1.0 < r[i]
    ensures 0.0 <= Sum(w) + Dot(w, r)
    ensures 0.0 < Sum(w) ==> 0.0 < Sum(w) + Dot(w, r)
  {
    SumRegrow(w, r);
    RegrowSigns(w, r);
    SumDominates(w, Regrow(w, r));
  }

  /** Holdings rescaled to weights that sum to one. */
  function Normalize(h: seq<real>): (w: seq<real>)
    requires 0.0 < Sum(h)
    ensures |w| == |h|
  {
    seq(|h|, i requires 0 <= i < |h| => h[i] / Sum(h))
  }

  /** Normalised non-negative holdings are long-only and fully invested. */
  lemma NormalizeSimplex(h: seq<real>)
    requires 0.0 < Sum(h) && forall i :: 0 <= i < |h| ==> 0.0 <= h[i]
    ensures Simplex(Normalize(h))
  {
    var w := Normalize(h);
    SumDivided(h, Sum(h), w);
    SelfRatio(Sum(h));
    QuotientsNonNegative(h, Sum(h), w);
  }

  /** Weights that already sum to one are their own normalisation. */
  lemma NormalizeSimplexFixed(w: seq<real>)
    requires Simplex(w)
    ensures Normalize(w) == w
  {
  }

  /** Normalisation ignores a common positive scale factor. */
  lemma NormalizeScaled(v: seq<real>, s: real, u: seq<real>)
    requires 0.0 < s && 0.0 < Sum(v) && |u| == |v|
    requires forall i :: 0 <= i < |v| ==> u[i] == v[i] / s
    ensures 0.0 < Sum(u)
    ensures Normalize(u) == Normalize(v)
  {
    SumDivided(v, s, u);
    assert 0.0 < Sum(v) / s;
    forall i | 0 <= i < |v| ensures Normalize(u)[i] == Normalize(v)[i] {
      CancelRatio(u[i], v[i], s, Sum(u), Sum(v));
    }
  }

  lemma CancelRatio(y: real, x: real, s: real, t: real, total: real)
    requires s != 0.0 && total != 0.0 && y == x / s && t == total / s
    ensures y / t == x / total
  {
  }

  /** Growing a scaled-down holding is scaling down the grown holding. */
  lemma RegrowScaled(h: seq<real>, r: seq<real>, s: real, u: seq<real>)
    requires |r| == |h| == |u| && s != 0.0
    requires forall i :: 0 <= i < |h| ==> u[i] == h[i] / s
    ensures forall i :: 0 <= i < |h| ==> Regrow(u, r)[i] == Regrow(h, r)[i] / s
  {
    forall i | 0 <= i < |h| ensures Regrow(u, r)[i] == Regrow(h, r)[i] / s {
      GrowScaled(h[i], r[i], s);
    }
  }

  lemma GrowScaled(a: real, q: real, s: real)
    requires s != 0.0
    ensures Grow(a / s, q) == Grow(a, q) / s
  {
  }

  /** Growing a c-fold holding gives the c-fold grown holding. */
  lemma GrowLinear(c: real, a: real, q: real)
    ensures Grow(c * a, q) == c * Grow(a, q)
  {
  }

  lemma NonNegativeRatio(a: real, b: real, c: real)
    requires 0.0 <= a && 0.0 <= b && 0.0 < c
    ensures 0.0 <= a * b / c
  {
    assert 0.0 <= a * b;
  }

  /** Non-negative terms divided by a positive denominator stay non-negative. */
  lemma QuotientsNonNegative(a: seq<real>, d: real, t: seq<real>)
    requires 0.0 < d && |t| == |a|
    requires forall i :: 0 <= i < |a| ==> 0.0 <= a[i]
    requires forall i :: 0 <= i < |a| ==> t[i] == a[i] / d
    ensures forall i :: 0 <= i < |t| ==> 0.0 <= t[i]
  {
  }

  lemma SelfRatio(x: real)
    requires x != 0.0
    ensures x / x == 1.0
  {
  }
}
