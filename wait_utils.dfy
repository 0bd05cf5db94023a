/**
 * `waitUtils.retry`: call an asynchronous function until it resolves, at most
 * `maxRetries` times, sleeping a fixed `delayMs` between failed attempts.
 *
 * The function is an oracle: `fn(k)` is what its k-th call (k from 1) does.
 * Sleeping is recorded, not performed: the model returns the ordered steps.
 */
module WaitUtils {

  const DefaultMaxRetries := 3
  const DefaultDelayMs := 1000

  /** What one call of `fn` does: it resolves with a value or throws an error. */
  datatype Attempt<T, E> = Resolved(value: T) | Rejected(error: E)

  /** What `retry` does: resolve, throw, or complete with `undefined`. */
  datatype RetryResult<T, E> = Returned(value: T) | Threw(error: E) | Undefined

  /** An observable step of `retry`: calling `fn` for the given attempt, or sleeping. */
  datatype Step = CallFn(attempt: nat) | Sleep(ms: int)

  /** The behaviour of the loop from attempt number `attempt` on. */
  function RetryFrom<T, E>(fn: nat -> Attempt<T, E>, attempt: nat, maxRetries: int, delayMs: int)
    : (RetryResult<T, E>, seq<Step>)
    decreases maxRetries - attempt
  {
    if attempt > maxRetries then (Undefined, [])
    else match fn(attempt)
      case Resolved(v) => (Returned(v), [CallFn(attempt)])
      case Rejected(e) =>
        if attempt == maxRetries then (Threw(e), [CallFn(attempt)])
        else
          var rest := RetryFrom(fn, attempt + 1, maxRetries, delayMs);
          (rest.0, [CallFn(attempt), Sleep(delayMs)] + rest.1)
  }

  /** `retry(fn, maxRetries, delayMs)`: its result and the steps it took. */
  method Retry<T, E>(fn: nat -> Attempt<T, E>, maxRetries: int, delayMs: int)
    returns (r: RetryResult<T, E>, steps: seq<Step>)
    ensures r == RetryFrom(fn, 1, maxRetries, delayMs).0
    ensures steps == RetryFrom(fn, 1, maxRetries, delayMs).1
    ensures maxRetries < 1 ==> r == Undefined && steps == []
  {
    steps := [];
    var attempt: nat := 1;
    while attempt <= maxRetries
      invariant 1 <= attempt
      invariant attempt <= maxRetries || attempt == 1
      invariant RetryFrom(fn, 1, maxRetries, delayMs).0 == RetryFrom(fn, attempt, maxRetries, delayMs).0
      invariant RetryFrom(fn, 1, maxRetries, delayMs).1 == steps + RetryFrom(fn, attempt, maxRetries, delayMs).1
      decreases maxRetries - attempt
    {
      steps := steps + [CallFn(attempt)];
      match fn(attempt) {
        case Resolved(v) =>
          r := Returned(v);
          return;
        case Rejected(e) =>
          if attempt == maxRetries {
            r := Threw(e);
            return;
          }
          steps := steps + [Sleep(delayMs)];
      }
      attempt := attempt + 1;
    }
    r := Undefined;
  }

  /** Attempts `first` to `last`, each separated from the next by one sleep of `delayMs`. */
  function Schedule(first: nat, last: nat, delayMs: int): seq<Step>
    requires first <= last
    decreases last - first
  {
    [CallFn(first)] + if first == last then [] else [Sleep(delayMs)] + Schedule(first + 1, last, delayMs)
  }

  function CallCount(steps: seq<Step>): nat {
    if steps == [] then 0 else (if steps[0].CallFn? then 1 else 0) + CallCount(steps[1..])
  }

  function SleepCount(steps: seq<Step>): nat {
    if steps == [] then 0 else (if steps[0].Sleep? then 1 else 0) + SleepCount(steps[1..])
  }

  /**
   * The schedule alternates calls and sleeps: even positions call attempts
   * `first`, `first + 1`, ... in order, odd positions sleep `delayMs`, and it
   * ends with a call, never a sleep.
   */
  lemma {:induction false} ScheduleShape(first: nat, last: nat, delayMs: int)
    requires first <= last
    ensures |Schedule(first, last, delayMs)| == 2 * (last - first) + 1
    ensures forall i :: 0 <= i < |Schedule(first, last, delayMs)| ==>
              Schedule(first, last, delayMs)[i] == if i % 2 == 0 then CallFn(first + i / 2) else Sleep(delayMs)
    decreases last - first
  {
    if first < last {
      ScheduleShape(first + 1, last, delayMs);
      var s := Schedule(first, last, delayMs);
      var rest := Schedule(first + 1, last, delayMs);
      assert s == [CallFn(first), Sleep(delayMs)] + rest;
      forall i | 2 <= i < |s|
        ensures s[i] == if i % 2 == 0 then CallFn(first + i / 2) else Sleep(delayMs)
      {
        assert s[i] == rest[i - 2];
      }
    }
  }

  /** Attempts `first..last` make `last - first + 1` calls and one sleep fewer. */
  lemma {:induction false} ScheduleCounts(first: nat, last: nat, delayMs: int)
    requires first <= last
    ensures CallCount(Schedule(first, last, delayMs)) == last - first + 1
    ensures SleepCount(Schedule(first, last, delayMs)) == last - first
    decreases last - first
  {
    var s := Schedule(first, last, delayMs);
    if first == last {
      assert s[1..] == [];
    } else {
      ScheduleCounts(first + 1, last, delayMs);
      var rest := Schedule(first + 1, last, delayMs);
      assert s[1..] == [Sleep(delayMs)] + rest;
      assert s[1..][1..] == rest;
    }
  }

  lemma {:induction false} SucceedsFrom<T, E>(fn: nat -> Attempt<T, E>, first: nat, k: nat, maxRetries: int, delayMs: int)
    requires 1 <= first <= k <= maxRetries
    requires forall j :: first <= j < k ==> fn(j).Rejected?
    requires fn(k).Resolved?
    ensures RetryFrom(fn, first, maxRetries, delayMs).0 == Returned(fn(k).value)
    ensures RetryFrom(fn, first, maxRetries, delayMs).1 == Schedule(first, k, delayMs)
    decreases k - first
  {
    if first < k {
      SucceedsFrom(fn, first + 1, k, maxRetries, delayMs);
      assert [CallFn(first), Sleep(delayMs)] + Schedule(first + 1, k, delayMs)
             == [CallFn(first)] + ([Sleep(delayMs)] + Schedule(first + 1, k, delayMs));
    } else {
      assert Schedule(first, k, delayMs) == [CallFn(first)];
    }
  }

  /**
   * When the first success is attempt `k <= maxRetries`, `retry` returns its
   * value after exactly attempts `1..k`, with a sleep between two attempts
   * and none after the success.
   */
  lemma RetryReturnsFirstSuccess<T, E>(fn: nat -> Attempt<T, E>, k: nat, maxRetries: int, delayMs: int)
    requires 1 <= k <= maxRetries
    requires forall j :: 1 <= j < k ==> fn(j).Rejected?
    requires fn(k).Resolved?
    ensures RetryFrom(fn, 1, maxRetries, delayMs).0 == Returned(fn(k).value)
    ensures RetryFrom(fn, 1, maxRetries, delayMs).1 == Schedule(1, k, delayMs)
    ensures CallCount(RetryFrom(fn, 1, maxRetries, delayMs).1) == k
    ensures SleepCount(RetryFrom(fn, 1, maxRetries, delayMs).1) == k - 1
  {
    SucceedsFrom(fn, 1, k, maxRetries, delayMs);
    ScheduleCounts(1, k, delayMs);
  }

  lemma {:induction false} ExhaustedFrom<T, E>(fn: nat -> Attempt<T, E>, first: nat, maxRetries: nat, delayMs: int)
    requires 1 <= first <= maxRetries
    requires forall j :: first <= j <= maxRetries ==> fn(j).Rejected?
    ensures RetryFrom(fn, first, maxRetries, delayMs).0 == Threw(fn(maxRetries).error)
    ensures RetryFrom(fn, first, maxRetries, delayMs).1 == Schedule(first, maxRetries, delayMs)
    decreases maxRetries - first
  {
    if first < maxRetries {
      ExhaustedFrom(fn, first + 1, maxRetries, delayMs);
      assert [CallFn(first), Sleep(delayMs)] + Schedule(first + 1, maxRetries, delayMs)
             == [CallFn(first)] + ([Sleep(delayMs)] + Schedule(first + 1, maxRetries, delayMs));
    } else {
      assert Schedule(first, maxRetries, delayMs) == [CallFn(first)];
    }
  }

  /**
   * When every attempt fails, `fn` is called exactly `maxRetries` times, the
   * error thrown is the last attempt's, unchanged, and no sleep follows it.
   */
  lemma RetryRethrowsLastError<T, E>(fn: nat -> Attempt<T, E>, maxRetries: nat, delayMs: int)
    requires 1 <= maxRetries
    requires forall j :: 1 <= j <= maxRetries ==> fn(j).Rejected?
    ensures RetryFrom(fn, 1, maxRetries, delayMs).0 == Threw(fn(maxRetries).error)
    ensures RetryFrom(fn, 1, maxRetries, delayMs).1 == Schedule(1, maxRetries, delayMs)
    ensures CallCount(RetryFrom(fn, 1, maxRetries, delayMs).1) == maxRetries
    ensures SleepCount(RetryFrom(fn, 1, maxRetries, delayMs).1) == maxRetries - 1
  {
    ExhaustedFrom(fn, 1, maxRetries, delayMs);
    ScheduleCounts(1, maxRetries, delayMs);
  }

  /**
   * Whatever `fn` does: every sleep lasts `delayMs` (no backoff), the steps
   * never end with a sleep, and the result is `undefined` only when no attempt
   * is allowed at all.
   */
  lemma {:induction false} RetryInvariants<T, E>(fn: nat -> Attempt<T, E>, attempt: nat, maxRetries: int, delayMs: int)
    requires 1 <= attempt
    ensures var (r, steps) := RetryFrom(fn, attempt, maxRetries, delayMs);
            && (forall i :: 0 <= i < |steps| && steps[i].Sleep? ==> steps[i].ms == delayMs)
            && (steps == [] || steps[|steps| - 1].CallFn?)
            && (r.Undefined? <==> attempt > maxRetries)
            && (steps == [] <==> attempt > maxRetries)
    decreases maxRetries - attempt
  {
    if attempt <= maxRetries && fn(attempt).Rejected? && attempt != maxRetries {
      RetryInvariants(fn, attempt + 1, maxRetries, delayMs);
      var rest := RetryFrom(fn, attempt + 1, maxRetries, delayMs).1;
      var steps := RetryFrom(fn, attempt, maxRetries, delayMs).1;
      assert steps == [CallFn(attempt), Sleep(delayMs)] + rest;
      assert forall i :: 2 <= i < |steps| ==> steps[i] == rest[i - 2];
    }
  }

  /** With the default arguments, a function that always fails runs three times, sleeping 1000 ms twice. */
  lemma DefaultRetryExhausted<T, E>(fn: nat -> Attempt<T, E>)
    requires forall j :: 1 <= j <= 3 ==> fn(j).Rejected?
    ensures RetryFrom(fn, 1, DefaultMaxRetries, DefaultDelayMs).0 == Threw(fn(3).error)
    ensures RetryFrom(fn, 1, DefaultMaxRetries, DefaultDelayMs).1
            == [CallFn(1), Sleep(1000), CallFn(2), Sleep(1000), CallFn(3)]
  {
    RetryRethrowsLastError(fn, 3, 1000);
    ScheduleShape(1, 3, 1000);
  }
}
