/** The period loops of the backtests: for each calendar year in
    range(2016, 2025), or each month start of a schedule, a pass either
    produces one result for the period or raises, which ends the loop. */
module PeriodLoop {
  import opened Wrappers

  const FirstYear: int := 2016
  const LastYear: int := 2024

  /** range(2016, 2025) */
  function Years(): (ys: seq<int>)
    ensures |ys| == LastYear - FirstYear + 1
    ensures forall k :: 0 <= k < |ys| ==> ys[k] == FirstYear + k
  {
    seq(LastYear - FirstYear + 1, k requires 0 <= k < LastYear - FirstYear + 1 => FirstYear + k)
  }

  /** The results of running step over the periods in order, appended one
      period at a time, or the error of the first failing period. */
  function Accumulate<K, T>(step: K -> Result<T, string>, periods: seq<K>): (res: Result<seq<T>, string>)
    ensures res.Success? ==> |res.value| == |periods|
  {
    if periods == [] then Success([])
    else
      var n := |periods| - 1;
      match Accumulate(step, periods[..n])
      case Failure(e) => Failure(e)
      case Success(front) =>
        match step(periods[n])
        case Failure(e) => Failure(e)
        case Success(x) => Success(front + [x])
  }

  /** One more successful period appends its result. */
  lemma AccumulateSnoc<K, T>(step: K -> Result<T, string>, periods: seq<K>, k: nat)
    requires k < |periods| && Accumulate(step, periods[..k]).Success? && step(periods[k]).Success?
    ensures Accumulate(step, periods[..k + 1]) == Success(Accumulate(step, periods[..k]).value + [step(periods[k]).value])
  {
    assert periods[..k + 1][..k] == periods[..k];
  }

  /** A failing period ends the loop with its error, whatever periods follow. */
  lemma {:induction false} AccumulateAbort<K, T>(step: K -> Result<T, string>, periods: seq<K>, k: nat)
    requires k < |periods| && Accumulate(step, periods[..k]).Success? && step(periods[k]).Failure?
    ensures Accumulate(step, periods) == Failure(step(periods[k]).error)
    decreases |periods|
  {
    var n := |periods| - 1;
    if k == n {
      assert periods[..n] == periods[..k];
    } else {
      assert periods[..n][..k] == periods[..k];
      AccumulateAbort(step, periods[..n], k);
    }
  }

  /** The loop fails exactly when one of its periods fails. */
  lemma {:induction false} AccumulateFailIff<K, T>(step: K -> Result<T, string>, periods: seq<K>)
    ensures Accumulate(step, periods).Failure? <==> exists k :: 0 <= k < |periods| && step(periods[k]).Failure?
  {
    if periods != [] {
      var n := |periods| - 1;
      AccumulateFailIff(step, periods[..n]);
      assert forall k :: 0 <= k < n ==> periods[..n][k] == periods[k];
    }
  }

  /** Entry k of a successful loop is period k's result. */
  lemma {:induction false} AccumulateEntry<K, T>(step: K -> Result<T, string>, periods: seq<K>, k: nat)
    requires k < |periods| && Accumulate(step, periods).Success?
    ensures step(periods[k]).Success?
    ensures Accumulate(step, periods).value[k] == step(periods[k]).value
    decreases |periods|
  {
    var n := |periods| - 1;
    if k < n {
      assert periods[..n][k] == periods[k];
      AccumulateEntry(step, periods[..n], k);
    }
  }
}
