/** Failure-compatible wrappers shared by every module: an optional value
    (also used for pandas' NaN / a missing cell) and a success-or-error result
    (used for the exceptions the Python code raises); and the two projections
    of a list of pairs, which the loops that build two tables at once use. */
module Wrappers {

  datatype Option<+T> = None | Some(value: T)

  datatype Result<+R, +E> = Success(value: R) | Failure(error: E)

  /** The first and the second components of a list of pairs. */
  function Firsts<A, B>(pairs: seq<(A, B)>): (rs: seq<A>)
    ensures |rs| == |pairs| && forall k :: 0 <= k < |pairs| ==> rs[k] == pairs[k].0
  {
    seq(|pairs|, k requires 0 <= k < |pairs| => pairs[k].0)
  }

  function Seconds<A, B>(pairs: seq<(A, B)>): (rs: seq<B>)
    ensures |rs| == |pairs| && forall k :: 0 <= k < |pairs| ==> rs[k] == pairs[k].1
  {
    seq(|pairs|, k requires 0 <= k < |pairs| => pairs[k].1)
  }

  lemma PairsSnoc<A, B>(pairs: seq<(A, B)>, p: (A, B))
    ensures Firsts(pairs + [p]) == Firsts(pairs) + [p.0]
    ensures Seconds(pairs + [p]) == Seconds(pairs) + [p.1]
  {
    assert Firsts(pairs + [p])[|pairs|] == p.0;
    assert Seconds(pairs + [p])[|pairs|] == p.1;
  }
}
