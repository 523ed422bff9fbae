// Bounded retry with exponential back-off (src/common/retry.ts).
module Retry {
  import opened Wrappers

  const DEFAULT_ATTEMPTS := 10
  const DEFAULT_INITIAL_DELAY_MS := 500
  const DEFAULT_MAX_DELAY_MS := 5000

  /** What a rejected task was rejected with: an `Error`, or anything else. */
  datatype Failure = ErrorObject(message: string) | OtherValue

  /** What the caller sees: the last `Error`, or a message built from the options. */
  datatype RetryError =
    | LastError(message: string)
    | FailureMessage(message: string)
    | FailedAfter(attempts: int)

  function Pow2(n: nat): (p: nat)
    ensures p >= 1
  {
    if n == 0 then 1 else 2 * Pow2(n - 1)
  }

  function Min(a: int, b: int): int {
    if a <= b then a else b
  }

  /** The sleep after failed attempt number `attempt`, counted from 1. */
  function DelayAfter(attempt: nat, initial: int, max: int): int
    requires attempt >= 1
  {
    Min(initial * Pow2(attempt - 1), max)
  }

  /** What is thrown once the budget is spent; `last` is None when no attempt was made. */
  function Exhausted(last: Option<Failure>, attempts: int, failureMessage: Option<string>): RetryError {
    if last.Some? && last.value.ErrorObject? then LastError(last.value.message)
    else if failureMessage.Some? then FailureMessage(failureMessage.value)
    else FailedAfter(attempts)
  }

  /** The attempt loop: `task(i)` is the outcome of attempt i; `slept` and `reported` list the pauses and the hook calls. */
  method WithBoundedRetry<T>(task: nat -> Result<T, Failure>, attempts: int, initial: int, max: int,
                             failureMessage: Option<string>)
    returns (result: Result<T, RetryError>, runs: nat, slept: seq<int>, reported: seq<nat>)
    ensures runs <= (if attempts < 0 then 0 else attempts)
    ensures forall i :: 1 <= i < runs ==> task(i).Err?
    ensures result.Ok? ==> runs >= 1 && task(runs) == Ok(result.value)
    ensures result.Err? ==>
              && runs == (if attempts < 0 then 0 else attempts)
              && (forall i :: 1 <= i <= runs ==> task(i).Err?)
              && (runs > 0 && task(runs).error.ErrorObject? ==> result.error == LastError(task(runs).error.message))
              && (runs == 0 || task(runs).error == OtherValue ==>
                    result.error == if failureMessage.Some? then FailureMessage(failureMessage.value)
                                    else FailedAfter(attempts))
    ensures |slept| == |reported| == if runs == 0 then 0 else runs - 1
    ensures forall i :: 0 <= i < |slept| ==> slept[i] == DelayAfter(i + 1, initial, max) && reported[i] == i + 1
  {
    runs, slept, reported := 0, [], [];
    var lastError: Option<Failure> := None;
    var attempt: nat := 1;
    while attempt <= attempts
      invariant 1 <= attempt && (attempts < 0 ==> attempt == 1) && (attempts >= 0 ==> attempt <= attempts + 1)
      invariant runs == attempt - 1
      invariant forall i :: 1 <= i <= runs ==> task(i).Err?
      invariant lastError == if runs == 0 then None else Some(task(runs).error)
      invariant |slept| == |reported| == if runs == 0 then 0 else if runs < attempts then runs else runs - 1
      invariant forall i :: 0 <= i < |slept| ==> slept[i] == DelayAfter(i + 1, initial, max) && reported[i] == i + 1
    {
      runs := runs + 1;
      match task(attempt) {
        case Ok(value) =>
          return Ok(value), runs, slept, reported;
        case Err(e) =>
          lastError := Some(e);
          if attempt < attempts {
            reported := reported + [attempt];
            slept := slept + [DelayAfter(attempt, initial, max)];
          }
      }
      attempt := attempt + 1;
    }
    result := Err(Exhausted(lastError, attempts, failureMessage));
  }

  // ---------- Arithmetic of the pauses ----------

  /** The pauses of a run that fails n times and is then allowed one more attempt. */
  function Delays(n: nat, initial: int, max: int): seq<int> {
    seq(n, i requires i >= 0 => DelayAfter(i + 1, initial, max))
  }

  function Sum(s: seq<int>): int {
    if |s| == 0 then 0 else Sum(s[..|s| - 1]) + s[|s| - 1]
  }

  /** How many of the first n pauses are below the cap. */
  function Uncapped(n: nat, initial: int, max: int): (k: nat)
    ensures k <= n
  {
    if n == 0 then 0
    else Uncapped(n - 1, initial, max) + (if initial * Pow2(n - 1) < max then 1 else 0)
  }

  /** Pauses never exceed the cap and never shrink. */
  lemma DelaysGrowToTheCap(attempt: nat, initial: int, max: int)
    requires attempt >= 1 && initial >= 0
    ensures DelayAfter(attempt, initial, max) <= DelayAfter(attempt + 1, initial, max) <= max
  {
  }

  lemma {:induction false} UncappedIsAPrefix(n: nat, initial: int, max: int)
    requires initial >= 0
    ensures initial * Pow2(n) < max ==> Uncapped(n, initial, max) == n
  {
    if n > 0 {
      var p := Pow2(n - 1);
      assert initial * Pow2(n) == initial * p + initial * p && initial * p >= 0;
      UncappedIsAPrefix(n - 1, initial, max);
    }
  }

  lemma {:induction false} SumSnoc(n: nat, initial: int, max: int)
    requires n > 0
    ensures Sum(Delays(n, initial, max)) == Sum(Delays(n - 1, initial, max)) + DelayAfter(n, initial, max)
  {
    assert Delays(n, initial, max)[..n - 1] == Delays(n - 1, initial, max);
  }

  lemma DoublingStep(initial: int, p: int)
    ensures initial * (p - 1) + initial * p == initial * (2 * p - 1)
  {
  }

  lemma CappedStep(m: int, max: int)
    ensures m * max + max == (m + 1) * max
  {
  }

  /** The total pause of n failures: a doubling stretch, then the cap for the rest. */
  lemma {:induction false} TotalPause(n: nat, initial: int, max: int)
    requires initial >= 0
    ensures var k := Uncapped(n, initial, max);
            Sum(Delays(n, initial, max)) == initial * (Pow2(k) - 1) + (n - k) * max
  {
    if n > 0 {
      TotalPause(n - 1, initial, max);
      SumSnoc(n, initial, max);
      var k, p := Uncapped(n - 1, initial, max), Pow2(n - 1);
      if initial * p < max {
        UncappedIsAPrefix(n - 1, initial, max);
        assert k == n - 1 && Uncapped(n, initial, max) == n && Pow2(n) == 2 * p;
        DoublingStep(initial, p);
      } else {
        assert Uncapped(n, initial, max) == k;
        CappedStep(n - 1 - k, max);
      }
    }
  }

  /** An exhausted retry with the defaults sleeps 32.5 s in all; one with the topic budget (5, 50, 500) sleeps 750 ms. */
  lemma PauseBudgets()
    ensures Sum(Delays(DEFAULT_ATTEMPTS - 1, DEFAULT_INITIAL_DELAY_MS, DEFAULT_MAX_DELAY_MS)) == 32500
    ensures Sum(Delays(4, 50, 500)) == 750
  {
    TotalPause(9, 500, 5000);
    TotalPause(4, 50, 500);
    assert Pow2(1) == 2 && Pow2(2) == 4 && Pow2(3) == 8 && Pow2(4) == 16;
    UncappedIsAPrefix(3, 500, 5000);
    assert Uncapped(4, 500, 5000) == 4;
    assert 500 * Pow2(4) >= 5000;
    assert Pow2(5) == 32 && Pow2(6) == 64 && Pow2(7) == 128 && Pow2(8) == 256;
    assert Uncapped(5, 500, 5000) == 4;
    assert Uncapped(6, 500, 5000) == 4;
    assert Uncapped(7, 500, 5000) == 4;
    assert Uncapped(8, 500, 5000) == 4;
    assert Uncapped(9, 500, 5000) == 4;
    UncappedIsAPrefix(3, 50, 500);
    assert Uncapped(4, 50, 500) == 4;
  }
}
