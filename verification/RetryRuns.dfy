/**
  The whole life of a job that always fails and may always be retried: does the window leave room
  for all ten attempts?

  The rounds of a life say how long the job waited past its due time before a claim took it, how
  long the handler worked, and what the jitter drew. Every row change is the queue's own;
  `RetryInQueue` shows that the queue's runs make exactly these.
 */
module RetryRuns {
  import opened Stock
  import opened Retry
  import opened Queue

  datatype Round = Round(wait: nat, work: nat, jitter: nat)

  datatype Life = Life(job: Job, claims: nat, last: Option<Decision>)

  function Play(j: Job, rounds: seq<Round>): Life
    decreases rounds
  {
    if rounds == [] || !Due(j, j.runAt + rounds[0].wait) then Life(j, 0, None)
    else
      var claimedAt := j.runAt + rounds[0].wait;
      var taken := Taken(j, 0, claimedAt, rounds[0].work);
      var d := NextAttempt(taken.attempts, taken.maxAttempts, claimedAt + rounds[0].work, taken.expiresAt,
                           true, None, rounds[0].jitter);
      var rest := Play(Settled(taken, d), rounds[1..]);
      Life(rest.job, 1 + rest.claims, if rest.last.None? then Some(d) else rest.last)
  }

  /** Waiting and working time up to the last claim; what the last handler does no longer matters. */
  function Idle(rounds: seq<Round>): nat {
    if rounds == [] then 0
    else if |rounds| == 1 then rounds[0].wait
    else rounds[0].wait + rounds[0].work + Idle(rounds[1..])
  }

  /** Full jitter: any delay below the nominal one of its attempt. */
  ghost predicate Jittered(rounds: seq<Round>, made: nat) {
    forall k :: 0 <= k < |rounds| ==> rounds[k].jitter < NominalDelayMs(made + 1 + k)
  }

  /** The draw that delays every attempt the longest. */
  function Slowest(rounds: seq<Round>, made: nat): (r: seq<Round>)
    ensures |r| == |rounds|
  {
    if rounds == [] then [] else [rounds[0].(jitter := NominalDelayMs(made + 1) - 1)] + Slowest(rounds[1..], made + 1)
  }

  lemma {:induction false} SlowestIsJittered(rounds: seq<Round>, made: nat)
    ensures Jittered(Slowest(rounds, made), made) && Idle(Slowest(rounds, made)) == Idle(rounds)
  {
    if rounds != [] {
      SlowestIsJittered(rounds[1..], made + 1);
      var r, rest := Slowest(rounds, made), Slowest(rounds[1..], made + 1);
      assert r[1..] == rest;
      forall k | 0 <= k < |r| ensures r[k].jitter < NominalDelayMs(made + 1 + k) {
        if k > 0 {
          assert r[k] == rest[k - 1];
        }
      }
    }
  }

  /** The latest the remaining claims can take: every delay is at least one short of nominal. */
  function Latest(j: Job, rounds: seq<Round>): int {
    j.runAt + Idle(rounds) + Ahead(j.attempts + 1) - (|rounds| - 1)
  }

  ghost predicate Ready(j: Job, rounds: seq<Round>) {
    j.status == Status.Ready && j.maxAttempts == MAX_ATTEMPTS && j.attempts + |rounds| == MAX_ATTEMPTS && rounds != []
  }

  /** One round of a life: when the job is due, everything follows from the row it leaves. */
  lemma PlayStep(j: Job, rounds: seq<Round>) returns (next: Job, d: Decision)
    requires rounds != [] && Due(j, j.runAt + rounds[0].wait)
    ensures d == NextAttempt(j.attempts + 1, j.maxAttempts, j.runAt + rounds[0].wait + rounds[0].work, j.expiresAt,
                             true, None, rounds[0].jitter)
    ensures match d
            case Again(runAt, _) => next == j.(attempts := j.attempts + 1, runAt := runAt, claim := None)
            case DeadLetter(_) => next == j.(attempts := j.attempts + 1, status := Dead, claim := None)
    ensures var rest := Play(next, rounds[1..]);
            Play(j, rounds) == Life(rest.job, 1 + rest.claims, if rest.last.None? then Some(d) else rest.last)
  {
    var claimedAt := j.runAt + rounds[0].wait;
    var taken := Taken(j, 0, claimedAt, rounds[0].work);
    d := NextAttempt(taken.attempts, taken.maxAttempts, claimedAt + rounds[0].work, taken.expiresAt, true, None, rounds[0].jitter);
    next := Settled(taken, d);
  }

  /** A retried round uses up its own share of the latest finish. */
  lemma LatestStep(j: Job, rounds: seq<Round>, next: Job)
    requires |rounds| > 1 && Ready(j, rounds)
    requires next.attempts == j.attempts + 1
    requires next.runAt == j.runAt + rounds[0].wait + rounds[0].work + rounds[0].jitter
    ensures Latest(next, rounds[1..]) == Latest(j, rounds) + rounds[0].jitter + 1 - NominalDelayMs(j.attempts + 1)
  {
  }

  /** With room left the next claim comes in time, and so does a retry after it. */
  lemma InTime(j: Job, rounds: seq<Round>)
    requires Ready(j, rounds) && Jittered(rounds, j.attempts) && Latest(j, rounds) < j.expiresAt
    ensures Due(j, j.runAt + rounds[0].wait)
    ensures |rounds| > 1 ==> j.runAt + rounds[0].wait + rounds[0].work + rounds[0].jitter < j.expiresAt
  {
    AheadCovers(j.attempts + 1);
    if |rounds| > 1 {
      AheadCovers(j.attempts + 2);
      assert rounds[0].jitter < NominalDelayMs(j.attempts + 1 + 0);
    }
  }

  lemma JitteredRest(rounds: seq<Round>, made: nat)
    requires rounds != [] && Jittered(rounds, made)
    ensures rounds[0].jitter < NominalDelayMs(made + 1)
    ensures Jittered(rounds[1..], made + 1)
  {
    assert rounds[0].jitter < NominalDelayMs(made + 1 + 0);
    forall k | 0 <= k < |rounds[1..]| ensures rounds[1..][k].jitter < NominalDelayMs(made + 1 + 1 + k) {
      assert rounds[1..][k] == rounds[k + 1];
    }
  }

  lemma {:induction false} RoomForAll(j: Job, rounds: seq<Round>)
    requires Ready(j, rounds) && Jittered(rounds, j.attempts) && Latest(j, rounds) < j.expiresAt
    ensures var life := Play(j, rounds);
            && life.claims == |rounds|
            && life.last == Some(DeadLetter(AttemptsExhausted))
            && life.job.status == Dead && life.job.attempts == MAX_ATTEMPTS
    decreases rounds
  {
    InTime(j, rounds);
    var next, d := PlayStep(j, rounds);
    if |rounds| > 1 {
      JitteredRest(rounds, j.attempts);
      LatestStep(j, rounds, next);
      RoomForAll(next, rounds[1..]);
    } else {
      OverIsOver(next, rounds[1..]);
    }
  }

  /** The delays still to come are longer than the jitter shortens them. */
  lemma {:induction false} AheadCovers(attempt: nat)
    requires 1 <= attempt <= MAX_ATTEMPTS
    ensures Ahead(attempt) >= MAX_ATTEMPTS - attempt
    decreases MAX_ATTEMPTS - attempt
  {
    if attempt < MAX_ATTEMPTS {
      AheadCovers(attempt + 1);
    }
  }

  /** A job whose time is up is never claimed again. */
  lemma OverIsOver(j: Job, rounds: seq<Round>)
    requires j.status == Dead || j.runAt >= j.expiresAt
    ensures Play(j, rounds) == Life(j, 0, None)
  {
  }

  /** Once it is not due, nothing happens any more. */
  lemma NotDueIsOver(j: Job, rounds: seq<Round>)
    requires rounds != [] && !Due(j, j.runAt + rounds[0].wait)
    ensures Play(j, rounds) == Life(j, 0, None)
  {
  }

  lemma SlowestRest(rounds: seq<Round>, made: nat)
    requires rounds != [] && rounds == Slowest(rounds, made)
    ensures rounds[0].jitter == NominalDelayMs(made + 1) - 1
    ensures rounds[1..] == Slowest(rounds[1..], made + 1)
  {
  }

  lemma {:induction false} NoRoom(j: Job, rounds: seq<Round>)
    requires Ready(j, rounds) && rounds == Slowest(rounds, j.attempts) && Latest(j, rounds) >= j.expiresAt
    ensures var life := Play(j, rounds);
            && life.claims < |rounds|
            && life.last != Some(DeadLetter(AttemptsExhausted))
            && (life.job.status == Dead ==> life.last == Some(DeadLetter(WindowElapsed)))
    decreases rounds
  {
    if |rounds| == 1 || !Due(j, j.runAt + rounds[0].wait) {
      NotDueIsOver(j, rounds);
    } else {
      var next, d := PlayStep(j, rounds);
      SlowestRest(rounds, j.attempts);
      if d.Again? {
        LatestStep(j, rounds, next);
        NoRoom(next, rounds[1..]);
      } else {
        OverIsOver(next, rounds[1..]);
      }
    }
  }

  /** A job as enqueued with the default window and attempts. */
  ghost predicate Enqueued(j: Job) {
    && j.status == Status.Ready && j.attempts == 0
    && j.maxAttempts == MAX_ATTEMPTS && j.expiresAt == j.runAt + DEAD_LETTER_WINDOW_MS
  }

  /** Ten attempts always fit, whatever the jitter draws, when waiting and working leave 5 920 008
      milliseconds or less; that bound is exact, because with one more there is a draw under which
      the window closes before the tenth. */
  lemma TenAttemptsFitExactly(j: Job, rounds: seq<Round>)
    requires Enqueued(j) && |rounds| == MAX_ATTEMPTS && Jittered(rounds, 0)
    ensures Idle(rounds) <= 5_920_008 ==>
              && Play(j, rounds).claims == 10
              && Play(j, rounds).last == Some(DeadLetter(AttemptsExhausted))
              && Play(j, rounds).job.status == Dead
    ensures Idle(rounds) > 5_920_008 ==>
              && Jittered(Slowest(rounds, 0), 0) && Idle(Slowest(rounds, 0)) == Idle(rounds)
              && Play(j, Slowest(rounds, 0)).claims < 10
              && Play(j, Slowest(rounds, 0)).last != Some(DeadLetter(AttemptsExhausted))
  {
    ScheduleSpan();
    SlowestIsJittered(rounds, 0);
    if Idle(rounds) <= 5_920_008 {
      RoomForAll(j, rounds);
    } else {
      SlowestTwice(rounds, 0);
      NoRoom(j, Slowest(rounds, 0));
    }
  }

  lemma {:induction false} SlowestTwice(rounds: seq<Round>, made: nat)
    ensures Slowest(Slowest(rounds, made), made) == Slowest(rounds, made)
  {
    if rounds != [] {
      SlowestTwice(rounds[1..], made + 1);
      assert Slowest(rounds, made)[1..] == Slowest(rounds[1..], made + 1);
    }
  }
}
