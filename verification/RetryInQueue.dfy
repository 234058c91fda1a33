/**
  The life of an always failing job as the queue lives it: rounds of claim and failure inside a run
  of queue operations, with anything in between that leaves the job alone.
 */
module RetryInQueue {
  import opened Stock
  import opened Retry
  import opened Queue
  import opened QueueRuns
  import opened RetryRuns

  /** The operation leaves the job and its claims alone, or only extends the lease of its claim. */
  ghost predicate Aside(w: World, op: Op, id: nat)
    requires Named(w, op) && id < |w.queue.jobs|
  {
    var q' := Next(w, op).queue;
    && id < |q'.jobs|
    && q'.jobs[id].(claim := w.queue.jobs[id].claim) == w.queue.jobs[id]
    && ClaimsOf(q'.attempts, id) == ClaimsOf(w.queue.attempts, id)
  }

  /** The operation claims the job as long after its due time as the round says. */
  ghost predicate Takes(w: World, op: Op, id: nat, round: Round)
    requires id < |w.queue.jobs|
  {
    && op.Claim?
    && op.view.now == w.queue.jobs[id].runAt + round.wait
    && StepOf(w, op).reply.Claimed?
    && StepOf(w, op).reply.job.id == id
  }

  /** The operation fails the claim after the round's work, with the round's jitter, and the index
      lets it. */
  ghost predicate Fails(w: World, op: Op, id: nat, attempt: nat, round: Round)
    requires Named(w, op) && id < |w.queue.jobs|
  {
    && op == Op.Fail(attempt, true, None, w.queue.jobs[id].runAt + round.wait + round.work, round.jitter)
    && StepOf(w, op).reply.Decided?
  }

  /** From here on the job, not claimed now, lives through the rounds until it is over or not due. */
  ghost predicate Lives(w: World, ops: seq<Op>, id: nat, rounds: seq<Round>)
    requires IsRun(w, ops) && id < |w.queue.jobs|
    decreases ops
  {
    if ops == [] then rounds == [] || !Due(w.queue.jobs[id], w.queue.jobs[id].runAt + rounds[0].wait)
    else
      || (Aside(w, ops[0], id) && Lives(Next(w, ops[0]), ops[1..], id, rounds))
      || (rounds != [] && Takes(w, ops[0], id, rounds[0])
          && Works(Next(w, ops[0]), ops[1..], id, |w.handed|, rounds))
  }

  /** The same while the job is claimed, for the first of the rounds. */
  ghost predicate Works(w: World, ops: seq<Op>, id: nat, attempt: nat, rounds: seq<Round>)
    requires IsRun(w, ops) && id < |w.queue.jobs| && rounds != []
    decreases ops
  {
    ops != []
    && (|| (Aside(w, ops[0], id) && Works(Next(w, ops[0]), ops[1..], id, attempt, rounds))
        || (Fails(w, ops[0], id, attempt, rounds[0])
            && id < |Next(w, ops[0]).queue.jobs| && Lives(Next(w, ops[0]), ops[1..], id, rounds[1..])))
  }

  /** The job after a round, as it is left by the failure. */
  function Later(j: Job, round: Round): Job {
    Settled(j.(attempts := j.attempts + 1),
            NextAttempt(j.attempts + 1, j.maxAttempts, j.runAt + round.wait + round.work, j.expiresAt, true, None, round.jitter))
  }

  /** What the claim's copy of the row says, and the row itself while it is claimed. */
  ghost predicate Holding(w: World, id: nat, attempt: nat, j: Job) {
    && id < |w.queue.jobs| && attempt < |w.handed|
    && w.queue.jobs[id].(claim := None) == j.(status := Running, attempts := j.attempts + 1, claim := None)
    && var h := w.handed[attempt];
       h.id == id && h.attempts == j.attempts + 1 && h.maxAttempts == j.maxAttempts && h.expiresAt == j.expiresAt
  }

  lemma HandedStays(w: World, op: Op)
    requires Named(w, op)
    ensures w.handed <= Next(w, op).handed
  {
  }

  lemma AsideUnclaimed(w: World, op: Op, id: nat)
    requires Inv(w) && Allowed(w, op) && id < |w.queue.jobs| && w.queue.jobs[id].status != Running && Aside(w, op, id)
    ensures Next(w, op).queue.jobs[id] == w.queue.jobs[id]
  {
    NextKeeps(w, op);
    assert Budgeted(w.queue.jobs[id]) && Budgeted(Next(w, op).queue.jobs[id]);
  }

  lemma AsideClaimed(w: World, op: Op, id: nat, attempt: nat, j: Job)
    requires Named(w, op) && id < |w.queue.jobs| && Holding(w, id, attempt, j) && Aside(w, op, id)
    ensures Holding(Next(w, op), id, attempt, j)
  {
    HandedStays(w, op);
  }

  lemma Claiming(w: World, op: Op, id: nat, round: Round)
    requires Inv(w) && Named(w, op) && id < |w.queue.jobs| && Takes(w, op, id, round)
    ensures var j, w' := w.queue.jobs[id], Next(w, op);
            && Due(j, j.runAt + round.wait)
            && Holding(w', id, |w.handed|, j)
            && ClaimsOf(w'.queue.attempts, id) == ClaimsOf(w.queue.attempts, id) + 1
  {
    var attempts := Next(w, op).queue.attempts;
    assert attempts[..|attempts| - 1] == w.queue.attempts;
  }

  lemma Failing(w: World, op: Op, id: nat, attempt: nat, j: Job, round: Round)
    requires Named(w, op) && Holding(w, id, attempt, j) && Fails(w, op, id, attempt, round)
    ensures var w' := Next(w, op);
            && |w'.queue.jobs| == |w.queue.jobs|
            && w'.queue.jobs[id] == Later(j, round)
            && ClaimsOf(w'.queue.attempts, id) == ClaimsOf(w.queue.attempts, id)
  {
    ClaimsDependOnJobs(w.queue.attempts, Next(w, op).queue.attempts, id);
  }

  lemma PlayedOn(j: Job, rounds: seq<Round>, next: Job)
    requires rounds != [] && Due(j, j.runAt + rounds[0].wait) && next == Later(j, rounds[0])
    ensures next.status != Running
    ensures Play(j, rounds).job == Play(next, rounds[1..]).job
    ensures Play(j, rounds).claims == 1 + Play(next, rounds[1..]).claims
  {
    var played, d := PlayStep(j, rounds);
    assert played == next;
  }

  /** A failure in the queue takes the life one round on. */
  lemma FailingPlays(w: World, op: Op, id: nat, attempt: nat, j: Job, rounds: seq<Round>)
    requires Named(w, op) && Holding(w, id, attempt, j) && rounds != [] && Fails(w, op, id, attempt, rounds[0])
    requires Due(j, j.runAt + rounds[0].wait)
    ensures var q := Next(w, op).queue;
            && |q.jobs| == |w.queue.jobs|
            && q.jobs[id].status != Running
            && Play(j, rounds).job == Play(q.jobs[id], rounds[1..]).job
            && Play(j, rounds).claims == 1 + Play(q.jobs[id], rounds[1..]).claims
            && ClaimsOf(q.attempts, id) == ClaimsOf(w.queue.attempts, id)
  {
    Failing(w, op, id, attempt, j, rounds[0]);
    PlayedOn(j, rounds, Next(w, op).queue.jobs[id]);
  }

  /** Where a run leaves the job. */
  ghost predicate Ends(w: World, ops: seq<Op>, id: nat, job: Job, claims: int)
    requires IsRun(w, ops)
  {
    var q := After(w, ops).queue;
    id < |q.jobs| && q.jobs[id] == job && ClaimsOf(q.attempts, id) == claims
  }

  lemma EndsLater(w: World, ops: seq<Op>, id: nat, job: Job, claims: int)
    requires ops != [] && IsRun(w, ops) && Ends(Next(w, ops[0]), ops[1..], id, job, claims)
    ensures Ends(w, ops, id, job, claims)
  {
  }

  /** The row and the number of claims at the end of a life are those of the chain of row changes. */
  lemma {:induction false} LifeIsPlay(w: World, ops: seq<Op>, id: nat, rounds: seq<Round>)
    requires Inv(w) && IsRun(w, ops) && id < |w.queue.jobs| && w.queue.jobs[id].status != Running
    requires Lives(w, ops, id, rounds)
    ensures var life := Play(w.queue.jobs[id], rounds);
            Ends(w, ops, id, life.job, ClaimsOf(w.queue.attempts, id) + life.claims)
    decreases ops
  {
    if ops == [] {
      if rounds != [] {
        NotDueIsOver(w.queue.jobs[id], rounds);
      }
    } else {
      var next := Next(w, ops[0]);
      NextKeeps(w, ops[0]);
      if Aside(w, ops[0], id) && Lives(next, ops[1..], id, rounds) {
        AsideUnclaimed(w, ops[0], id);
        LifeIsPlay(next, ops[1..], id, rounds);
      } else {
        Claiming(w, ops[0], id, rounds[0]);
        WorkIsPlay(next, ops[1..], id, |w.handed|, w.queue.jobs[id], rounds);
      }
    }
  }

  lemma {:induction false} WorkIsPlay(w: World, ops: seq<Op>, id: nat, attempt: nat, j: Job, rounds: seq<Round>)
    requires Inv(w) && IsRun(w, ops) && id < |w.queue.jobs| && rounds != [] && Works(w, ops, id, attempt, rounds)
    requires Holding(w, id, attempt, j) && Due(j, j.runAt + rounds[0].wait)
    ensures var life := Play(j, rounds);
            Ends(w, ops, id, life.job, ClaimsOf(w.queue.attempts, id) + life.claims - 1)
    decreases ops
  {
    var after := Next(w, ops[0]);
    NextKeeps(w, ops[0]);
    if Aside(w, ops[0], id) && Works(after, ops[1..], id, attempt, rounds) {
      AsideClaimed(w, ops[0], id, attempt, j);
      WorkIsPlay(after, ops[1..], id, attempt, j, rounds);
    } else {
      FailingPlays(w, ops[0], id, attempt, j, rounds);
      LifeIsPlay(after, ops[1..], id, rounds[1..]);
    }
    EndsLater(w, ops, id, Play(j, rounds).job, ClaimsOf(w.queue.attempts, id) + Play(j, rounds).claims - 1);
  }

  /** In the queue, whatever else runs in it: a job just enqueued that waits and works for 5 920 008
      milliseconds or less is claimed ten times and is then dead. */
  lemma TenClaimsFit(w: World, ops: seq<Op>, id: nat, rounds: seq<Round>)
    requires Inv(w) && IsRun(w, ops) && id < |w.queue.jobs| && Enqueued(w.queue.jobs[id])
    requires |rounds| == MAX_ATTEMPTS && Jittered(rounds, 0) && Lives(w, ops, id, rounds) && Idle(rounds) <= 5_920_008
    ensures var q := After(w, ops).queue;
            && id < |q.jobs| && q.jobs[id].status == Dead
            && ClaimsOf(q.attempts, id) == ClaimsOf(w.queue.attempts, id) + 10
  {
    LifeIsPlay(w, ops, id, rounds);
    TenAttemptsFitExactly(w.queue.jobs[id], rounds);
  }

  // ---------------------------------------------------------------------------------------
  // Every life can be lived
  // ---------------------------------------------------------------------------------------

  function Claimed(j: Job, round: Round): Op {
    Op.Claim(Options(0, round.work, [], None), View(j.runAt + round.wait, {}, {}))
  }

  function Failed(j: Job, round: Round, attempt: nat): Op {
    Op.Fail(attempt, true, None, j.runAt + round.wait + round.work, round.jitter)
  }

  /** The rounds as operations on a queue that holds nothing but the job. */
  function LifeOps(j: Job, rounds: seq<Round>, attempt: nat): seq<Op>
    decreases rounds
  {
    if rounds == [] || !Due(j, j.runAt + rounds[0].wait) then []
    else
      [Claimed(j, rounds[0])]
      + ([Failed(j, rounds[0], attempt)] + LifeOps(Later(j, rounds[0]), rounds[1..], attempt + 1))
  }

  /** The queue holds only this job, which is not claimed, and every claim has been recorded. */
  ghost predicate Alone(w: World, j: Job) {
    w.queue.jobs == [j] && j.status != Running && |w.handed| == |w.queue.attempts|
  }

  lemma AloneClaims(w: World, j: Job, round: Round)
    requires Alone(w, j) && Due(j, j.runAt + round.wait)
    ensures var op := Claimed(j, round);
            var w' := Next(w, op);
            && Allowed(w, op) && Takes(w, op, 0, round)
            && w'.queue.jobs == [Taken(j, 0, j.runAt + round.wait, round.work)]
            && Holding(w', 0, |w.handed|, j) && IsOpen(w', |w.handed|) && w'.handed[|w.handed|].attemptId == |w.handed|
            && |w'.handed| == |w'.queue.attempts| == |w.handed| + 1
  {
    var op := Claimed(j, round);
    assert Claimable(w.queue.jobs, op.options, op.view, 0);
    assert Best(w.queue.jobs, op.options, op.view, 0).None?;
  }

  lemma AloneFails(w: World, j: Job, round: Round, attempt: nat)
    requires w.queue.jobs == [Taken(j, 0, j.runAt + round.wait, round.work)] && |w.handed| == |w.queue.attempts|
    requires Holding(w, 0, attempt, j) && IsOpen(w, attempt)
    ensures var op := Failed(j, round, attempt);
            && Allowed(w, op) && Fails(w, op, 0, attempt, round)
            && Alone(Next(w, op), Later(j, round))
            && Next(w, op).handed == w.handed
  {
  }

  lemma TakesThenWorks(w: World, op: Op, rest: seq<Op>, id: nat, rounds: seq<Round>)
    requires id < |w.queue.jobs| && rounds != [] && Allowed(w, op) && Takes(w, op, id, rounds[0])
    requires id < |Next(w, op).queue.jobs| && IsRun(Next(w, op), rest) && Works(Next(w, op), rest, id, |w.handed|, rounds)
    ensures IsRun(w, [op] + rest) && Lives(w, [op] + rest, id, rounds)
  {
    assert ([op] + rest)[1..] == rest;
  }

  lemma FailsThenLives(w: World, op: Op, rest: seq<Op>, id: nat, attempt: nat, rounds: seq<Round>)
    requires id < |w.queue.jobs| && rounds != [] && Allowed(w, op) && Fails(w, op, id, attempt, rounds[0])
    requires id < |Next(w, op).queue.jobs| && IsRun(Next(w, op), rest) && Lives(Next(w, op), rest, id, rounds[1..])
    ensures IsRun(w, [op] + rest) && Works(w, [op] + rest, id, attempt, rounds)
  {
    assert ([op] + rest)[1..] == rest;
  }

  lemma AloneRound(w: World, j: Job, round: Round) returns (claimed: World, next: World)
    requires Alone(w, j) && Due(j, j.runAt + round.wait)
    ensures Allowed(w, Claimed(j, round)) && Takes(w, Claimed(j, round), 0, round) && claimed == Next(w, Claimed(j, round))
    ensures |claimed.queue.jobs| == 1
    ensures Allowed(claimed, Failed(j, round, |w.handed|)) && Fails(claimed, Failed(j, round, |w.handed|), 0, |w.handed|, round)
    ensures next == Next(claimed, Failed(j, round, |w.handed|))
    ensures Alone(next, Later(j, round)) && |next.handed| == |w.handed| + 1
  {
    AloneClaims(w, j, round);
    claimed := Next(w, Claimed(j, round));
    AloneFails(claimed, j, round, |w.handed|);
    next := Next(claimed, Failed(j, round, |w.handed|));
  }

  /** However long it waits and works and whatever is drawn, there is a run of the queue that lives so. */
  lemma {:induction false} AloneIsLived(w: World, j: Job, rounds: seq<Round>)
    requires Alone(w, j)
    ensures var ops := LifeOps(j, rounds, |w.handed|);
            IsRun(w, ops) && Lives(w, ops, 0, rounds)
    decreases rounds
  {
    if rounds != [] && Due(j, j.runAt + rounds[0].wait) {
      var claimed, next := AloneRound(w, j, rounds[0]);
      var rest := LifeOps(Later(j, rounds[0]), rounds[1..], |w.handed| + 1);
      AloneIsLived(next, Later(j, rounds[0]), rounds[1..]);
      FailsThenLives(claimed, Failed(j, rounds[0], |w.handed|), rest, 0, |w.handed|, rounds);
      TakesThenWorks(w, Claimed(j, rounds[0]), [Failed(j, rounds[0], |w.handed|)] + rest, 0, rounds);
    }
  }

  lemma FirstEnqueue(input: Input)
    requires input.maxAttempts == MAX_ATTEMPTS && input.windowMs == DEAD_LETTER_WINDOW_MS
    ensures Enqueued(Fresh(input)) && Inv(EMPTY) && Alone(Next(EMPTY, Op.Enqueue(input)), Fresh(input))
    ensures Inv(Next(EMPTY, Op.Enqueue(input))) && Next(EMPTY, Op.Enqueue(input)).queue.attempts == []
  {
    EmptyInv();
    NextKeeps(EMPTY, Op.Enqueue(input));
  }

  /** The bound is exact: for any rounds that wait and work a millisecond more there is a run of the
      queue, from nothing, that waits and works as they do and claims the job nine times or fewer. */
  lemma TenClaimsMissed(input: Input, rounds: seq<Round>) returns (ops: seq<Op>)
    requires input.maxAttempts == MAX_ATTEMPTS && input.windowMs == DEAD_LETTER_WINDOW_MS
    requires |rounds| == MAX_ATTEMPTS && Jittered(rounds, 0) && Idle(rounds) > 5_920_008
    ensures IsRun(Next(EMPTY, Op.Enqueue(input)), ops)
    ensures var w := Next(EMPTY, Op.Enqueue(input));
            && 0 < |w.queue.jobs| && w.queue.jobs[0] == Fresh(input)
            && Lives(w, ops, 0, Slowest(rounds, 0)) && Jittered(Slowest(rounds, 0), 0) && Idle(Slowest(rounds, 0)) == Idle(rounds)
            && ClaimsOf(After(w, ops).queue.attempts, 0) < 10
  {
    var w := Next(EMPTY, Op.Enqueue(input));
    var slowest := Slowest(rounds, 0);
    FirstEnqueue(input);
    ops := LifeOps(Fresh(input), slowest, 0);
    AloneIsLived(w, Fresh(input), slowest);
    LifeIsPlay(w, ops, 0, slowest);
    TenAttemptsFitExactly(Fresh(input), rounds);
  }
}
