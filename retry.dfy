/** `retry_connection(connect_coro, max_retries, delay, name)`: call the connection coroutine up to
    `max_retries` times, sleeping `delay` seconds between failed attempts but not after the last one,
    and raise `ConnectionError` when no attempt succeeds. */
module Retry {

  /** How one call of an action ends: it returns, it raises an `Exception` (which the loop catches), or
      it raises a `BaseException` that is not an `Exception`, such as `asyncio.CancelledError` (which
      the loop does not catch). */
  datatype Attempt = Succeeds | Fails | Cancelled

  /** How `retry_connection` ends. */
  datatype RetryOutcome = Connected | ConnectionFailed | Propagated

  /** What one run of the loop does: how it ends, how many times it calls the action, and the
      durations of the sleeps it makes, in order. */
  datatype RetryRun = RetryRun(outcome: RetryOutcome, calls: nat, sleeps: seq<int>)

  /** The behaviour of the loop from attempt `attempt` on; `connect(k)` says how attempt `k` ends. */
  function RetryFrom(connect: nat -> Attempt, attempt: nat, maxRetries: int, delay: int): RetryRun
    decreases maxRetries - attempt
  {
    if attempt > maxRetries then RetryRun(ConnectionFailed, 0, [])
    else match connect(attempt)
      case Succeeds => RetryRun(Connected, 1, [])
      case Cancelled => RetryRun(Propagated, 1, [])
      case Fails =>
        var rest := RetryFrom(connect, attempt + 1, maxRetries, delay);
        RetryRun(rest.outcome, rest.calls + 1, (if attempt < maxRetries then [delay] else []) + rest.sleeps)
  }

  /** The behaviour of `retry_connection`: attempts are numbered from 1. */
  function RetrySpec(connect: nat -> Attempt, maxRetries: int, delay: int): RetryRun
  {
    RetryFrom(connect, 1, maxRetries, delay)
  }

  /** The loop `for attempt in range(1, max_retries + 1)` with its early return, its caught failures and
      its conditional sleep; a `Cancelled` attempt leaves the loop as the uncaught exception does. */
  method RetryConnection(connect: nat -> Attempt, maxRetries: int, delay: int)
    returns (outcome: RetryOutcome, calls: nat, sleeps: seq<int>)
    ensures RetryRun(outcome, calls, sleeps) == RetrySpec(connect, maxRetries, delay)
  {
    calls, sleeps := 0, [];
    var attempt := 1;
    while attempt <= maxRetries
      invariant 1 <= attempt && (maxRetries >= 1 ==> attempt <= maxRetries + 1)
      invariant calls == attempt - 1
      invariant var rest := RetryFrom(connect, attempt, maxRetries, delay);
                RetrySpec(connect, maxRetries, delay)
                == RetryRun(rest.outcome, rest.calls + calls, sleeps + rest.sleeps)
      decreases maxRetries - attempt
    {
      calls := calls + 1;
      var result := connect(attempt);
      if result == Succeeds {
        return Connected, calls, sleeps;
      }
      if result == Cancelled {
        return Propagated, calls, sleeps;
      }
      if attempt < maxRetries {
        sleeps := sleeps + [delay];
      }
      attempt := attempt + 1;
    }
    SleepsAssociate(sleeps);
    return ConnectionFailed, calls, sleeps;
  }

  lemma SleepsAssociate(s: seq<int>)
    ensures s + [] == s
  {
  }

  /** Every attempt before `k` fails. */
  predicate FailsBefore(connect: nat -> Attempt, k: nat)
  {
    forall j :: 1 <= j < k ==> connect(j) == Fails
  }

  /** From attempt `a` on, when attempts `a` to `k - 1` fail and attempt `k` succeeds: `k - a + 1` calls
      and one sleep per failed attempt. */
  lemma {:induction false} SuccessFrom(connect: nat -> Attempt, a: nat, k: nat, maxRetries: int, delay: int)
    requires 1 <= a <= k <= maxRetries
    requires forall j :: a <= j < k ==> connect(j) == Fails
    requires connect(k) == Succeeds
    ensures var run := RetryFrom(connect, a, maxRetries, delay);
            run.outcome == Connected && run.calls == k - a + 1 && |run.sleeps| == k - a
    decreases k - a
  {
    if a < k {
      SuccessFrom(connect, a + 1, k, maxRetries, delay);
    }
  }

  /** Success on attempt `k` within the budget: `k` calls, `k - 1` sleeps and a normal return; success on
      the first attempt calls once and never sleeps. */
  lemma SuccessOnAttempt(connect: nat -> Attempt, k: nat, maxRetries: int, delay: int)
    requires 1 <= k <= maxRetries
    requires FailsBefore(connect, k) && connect(k) == Succeeds
    ensures var run := RetrySpec(connect, maxRetries, delay);
            run.outcome == Connected && run.calls == k && |run.sleeps| == k - 1
  {
    SuccessFrom(connect, 1, k, maxRetries, delay);
  }

  /** From attempt `a` on, when every attempt fails: one call per remaining attempt and one sleep per
      remaining attempt but the last. */
  lemma {:induction false} FailureFrom(connect: nat -> Attempt, a: nat, maxRetries: int, delay: int)
    requires 1 <= a <= maxRetries + 1
    requires forall j :: a <= j <= maxRetries ==> connect(j) == Fails
    ensures var run := RetryFrom(connect, a, maxRetries, delay);
            && run.outcome == ConnectionFailed
            && run.calls == maxRetries - a + 1
            && |run.sleeps| == if a <= maxRetries then maxRetries - a else 0
    decreases maxRetries - a
  {
    if a <= maxRetries {
      FailureFrom(connect, a + 1, maxRetries, delay);
    }
  }

  /** Persistent failure: exactly `max_retries` calls, `max_retries - 1` sleeps (none after the last
      attempt), then `ConnectionError`. */
  lemma PersistentFailure(connect: nat -> Attempt, maxRetries: int, delay: int)
    requires maxRetries >= 1
    requires FailsBefore(connect, maxRetries + 1)
    ensures var run := RetrySpec(connect, maxRetries, delay);
            run.outcome == ConnectionFailed && run.calls == maxRetries && |run.sleeps| == maxRetries - 1
  {
    FailureFrom(connect, 1, maxRetries, delay);
  }

  /** A budget of zero or fewer attempts makes no call and raises `ConnectionError` at once. */
  lemma NoBudget(connect: nat -> Attempt, maxRetries: int, delay: int)
    requires maxRetries <= 0
    ensures RetrySpec(connect, maxRetries, delay) == RetryRun(ConnectionFailed, 0, [])
  {
  }

  /** The delay is fixed: every sleep lasts exactly `delay`, and there are never more sleeps than
      calls. */
  lemma {:induction false} SleepsAreFixed(connect: nat -> Attempt, a: nat, maxRetries: int, delay: int)
    ensures var run := RetryFrom(connect, a, maxRetries, delay);
            && (forall i :: 0 <= i < |run.sleeps| ==> run.sleeps[i] == delay)
            && |run.sleeps| <= run.calls
    decreases maxRetries - a
  {
    if a <= maxRetries && connect(a) == Fails {
      SleepsAreFixed(connect, a + 1, maxRetries, delay);
    }
  }

  /** A cancellation is not retried: it ends the loop on the attempt it happens, with one sleep per
      earlier failure. */
  lemma CancelledOnAttempt(connect: nat -> Attempt, k: nat, maxRetries: int, delay: int)
    requires 1 <= k <= maxRetries
    requires FailsBefore(connect, k) && connect(k) == Cancelled
    ensures var run := RetrySpec(connect, maxRetries, delay);
            run.outcome == Propagated && run.calls == k && |run.sleeps| == k - 1
  {
    CancelledFrom(connect, 1, k, maxRetries, delay);
  }

  lemma {:induction false} CancelledFrom(connect: nat -> Attempt, a: nat, k: nat, maxRetries: int, delay: int)
    requires 1 <= a <= k <= maxRetries
    requires forall j :: a <= j < k ==> connect(j) == Fails
    requires connect(k) == Cancelled
    ensures var run := RetryFrom(connect, a, maxRetries, delay);
            run.outcome == Propagated && run.calls == k - a + 1 && |run.sleeps| == k - a
    decreases k - a
  {
    if a < k {
      CancelledFrom(connect, a + 1, k, maxRetries, delay);
    }
  }

  /** The embedding service's test: three failing attempts give three calls, two sleeps of the given
      delay and `ConnectionError`. */
  lemma ThreeFailures(delay: int)
    ensures RetrySpec(_ => Fails, 3, delay) == RetryRun(ConnectionFailed, 3, [delay, delay])
  {
  }
}
