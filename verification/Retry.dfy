/**
  When a failed job runs again and when it stops (packages/jobs/src/retry.ts).

  Times are milliseconds. The randomness is a parameter: `jitter` is the drawn delay, any whole
  number from zero up to but excluding the nominal one.
 */
module Retry {
  import opened Stock

  const FINAL_DELAY_MS: nat := 43_200_000

  /** The nine delays before attempts two through ten. */
  const RETRY_DELAYS_MS: seq<nat> :=
    [5_000, 15_000, 60_000, 300_000, 900_000, 3_600_000, 10_800_000, 21_600_000, FINAL_DELAY_MS]

  const MAX_ATTEMPTS: nat := 10
  const DEAD_LETTER_WINDOW_MS: nat := 24 * 60 * 60 * 1000

  datatype Reason = AttemptsExhausted | WindowElapsed | RetryAfterExceedsWindow | NotRetryable

  datatype Decision =
    | Again(runAt: int, delayMs: nat)
    | DeadLetter(reason: Reason)

  function NominalDelayMs(attempt: int): nat {
    if 1 <= attempt <= |RETRY_DELAYS_MS| then RETRY_DELAYS_MS[attempt - 1] else FINAL_DELAY_MS
  }

  function NextAttempt(
    attempt: int, maxAttempts: int, now: int, expiresAt: int,
    retryable: bool, retryAfterMs: Option<int>, jitter: nat
  ): Decision {
    if !retryable then DeadLetter(NotRetryable)
    else if attempt >= maxAttempts then DeadLetter(AttemptsExhausted)
    else if now >= expiresAt then DeadLetter(WindowElapsed)
    else
      var delayMs: nat := if retryAfterMs.None? then jitter else Max(0, retryAfterMs.value);
      if now + delayMs > expiresAt then
        DeadLetter(if retryAfterMs.None? then WindowElapsed else RetryAfterExceedsWindow)
      else Again(now + delayMs, delayMs)
  }

  /** A failed attempt is repeated exactly when repeating could help, the budget has an attempt left
      and the delay (the provider's own, when it named one) ends inside an unexpired window. */
  lemma RetriedExactly(
    attempt: int, maxAttempts: int, now: int, expiresAt: int,
    retryable: bool, retryAfterMs: Option<int>, jitter: nat
  )
    ensures var d := NextAttempt(attempt, maxAttempts, now, expiresAt, retryable, retryAfterMs, jitter);
            var delay := if retryAfterMs.None? then jitter else Max(0, retryAfterMs.value);
            && (d.Again? <==> retryable && attempt < maxAttempts && now < expiresAt && now + delay <= expiresAt)
            && (d.Again? ==> d.runAt == now + delay && now <= d.runAt <= expiresAt)
            && (d == DeadLetter(RetryAfterExceedsWindow) ==> retryAfterMs.Some? && now + retryAfterMs.value > expiresAt)
            && (d == DeadLetter(WindowElapsed) ==> now >= expiresAt || (retryAfterMs.None? && now + jitter > expiresAt))
  {
  }

  function Sum(delays: seq<nat>): nat {
    if delays == [] then 0 else delays[0] + Sum(delays[1..])
  }

  /** The unjittered span of the whole schedule. */
  function TotalScheduleMs(): nat {
    Sum(RETRY_DELAYS_MS)
  }

  /** The nominal delays still to come once `attempt` attempts have been made. */
  function Ahead(attempt: int): nat
    decreases MAX_ATTEMPTS - attempt
  {
    if attempt >= MAX_ATTEMPTS then 0 else NominalDelayMs(attempt) + Ahead(attempt + 1)
  }

  lemma {:induction false} AheadIsTheTableFrom(attempt: nat)
    requires 1 <= attempt <= MAX_ATTEMPTS
    ensures Ahead(attempt) == Sum(RETRY_DELAYS_MS[attempt - 1..])
    decreases MAX_ATTEMPTS - attempt
  {
    if attempt < MAX_ATTEMPTS {
      AheadIsTheTableFrom(attempt + 1);
      assert RETRY_DELAYS_MS[attempt - 1..][1..] == RETRY_DELAYS_MS[attempt..];
    }
  }

  /** 22 hours 21 minutes and 20 seconds: the schedule leaves 5 920 seconds of the window. */
  lemma {:induction false} ScheduleSpan()
    ensures TotalScheduleMs() == 80_480_000 == Ahead(1)
    ensures DEAD_LETTER_WINDOW_MS - TotalScheduleMs() == 5_920_000
  {
    assert Ahead(9) == 43_200_000 + Ahead(10);
    assert Ahead(8) == 21_600_000 + Ahead(9);
    assert Ahead(7) == 10_800_000 + Ahead(8);
    assert Ahead(6) == 3_600_000 + Ahead(7);
    assert Ahead(5) == 900_000 + Ahead(6);
    assert Ahead(4) == 300_000 + Ahead(5);
    assert Ahead(3) == 60_000 + Ahead(4);
    assert Ahead(2) == 15_000 + Ahead(3);
    assert Ahead(1) == 5_000 + Ahead(2);
    AheadIsTheTableFrom(1);
    assert RETRY_DELAYS_MS[0..] == RETRY_DELAYS_MS;
  }

  /** The schedule backs off: five seconds before the second attempt, at least twice as long before each
      that follows, and twelve hours from the tenth on. */
  lemma DelaysGrow(attempt: int)
    ensures NominalDelayMs(1) == 5_000
    ensures 1 <= attempt <= 8 ==> NominalDelayMs(attempt + 1) >= 2 * NominalDelayMs(attempt)
    ensures attempt >= 9 ==> NominalDelayMs(attempt) == 43_200_000
  {
  }
}
