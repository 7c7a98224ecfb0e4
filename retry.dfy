/**
 * RetryHelper.Execute, the test suite's retry loop: run a test up to maxAttempts times, return
 * at the first run that does not throw, sleep between failed runs, and after the last failure
 * throw an AggregateException holding every failure in order. A test is given by what each of
 * its runs does: `test(i)` is None when run i passes and Some(e) when it throws e. The sleeps
 * are returned as the list of their lengths, in milliseconds.
 */
module RetryHelpers {
  import opened Wrappers

  datatype RetryError<E> =
    | MaxAttemptsOutOfRange      // ArgumentOutOfRangeException
    | TestNull                   // ArgumentNullException
    | Aggregate(exceptions: seq<E>)  // AggregateException

  /** The default backoff: 100 ms per attempt made, at most a minute. */
  function DefaultBackoff(i: int): (ms: int)
    ensures ms <= 60000
    ensures i * 100 <= 60000 ==> ms == i * 100
  {
    if i * 100 < 60000 then i * 100 else 60000
  }

  /** The backoff used: the one given, or the default when none is. */
  function Backoff(backoff: Option<int -> int>, i: int): int {
    if backoff.Some? then backoff.value(i) else DefaultBackoff(i)
  }

  /** The sleeps after the first n failed runs. */
  function Sleeps(backoff: Option<int -> int>, n: nat): (s: seq<int>)
    ensures |s| == n
  {
    seq(n, j requires 0 <= j < n => Backoff(backoff, j + 1))
  }

  /** Runs 1..n all throw. */
  predicate AllFail<E>(test: nat -> Option<E>, n: nat) {
    forall i :: 1 <= i <= n ==> test(i).Some?
  }

  /** The exceptions of runs 1..n, in order. */
  function Failures<E>(test: nat -> Option<E>, n: nat): (es: seq<E>)
    requires AllFail(test, n)
    ensures |es| == n
  {
    seq(n, j requires 0 <= j < n => test(j + 1).value)
  }

  /** One more failed run appends its exception. */
  lemma FailuresNext<E>(test: nat -> Option<E>, n: nat)
    requires AllFail(test, n + 1)
    ensures Failures(test, n + 1) == Failures(test, n) + [test(n + 1).value]
  {
  }

  method Execute<E>(test: Option<nat -> Option<E>>, maxAttempts: int, backoff: Option<int -> int>)
    returns (r: Outcome<RetryError<E>>, runs: nat, sleeps: seq<int>)
    ensures maxAttempts < 1 ==> r == Fail(MaxAttemptsOutOfRange) && runs == 0
    ensures maxAttempts >= 1 && test.None? ==> r == Fail(TestNull) && runs == 0
    ensures maxAttempts >= 1 && test.Some? ==> 1 <= runs <= maxAttempts && AllFail(test.value, runs - 1)
    ensures maxAttempts >= 1 && test.Some? && r.Pass? ==> test.value(runs).None?
    ensures maxAttempts >= 1 && test.Some? && r.Fail? ==> (
      runs == maxAttempts && AllFail(test.value, runs) && r == Fail(Aggregate(Failures(test.value, runs))))
    ensures sleeps == Sleeps(backoff, if runs == 0 then 0 else runs - 1)
  {
    if maxAttempts < 1 {
      return Fail(MaxAttemptsOutOfRange), 0, [];
    }
    if test.None? {
      return Fail(TestNull), 0, [];
    }
    var exceptions := [];
    sleeps := [];
    var i := 1;
    while i <= maxAttempts
      invariant 1 <= i <= maxAttempts
      invariant AllFail(test.value, i - 1) && exceptions == Failures(test.value, i - 1)
      invariant sleeps == Sleeps(backoff, i - 1)
      decreases maxAttempts - i
    {
      var thrown := test.value(i);
      if thrown.None? {
        return Pass, i, sleeps;
      }
      FailuresNext(test.value, i - 1);
      exceptions := exceptions + [thrown.value];
      if i == maxAttempts {
        return Fail(Aggregate(exceptions)), i, sleeps;
      }
      sleeps := sleeps + [Backoff(backoff, i)];
      i := i + 1;
    }
    assert false;
  }
}
