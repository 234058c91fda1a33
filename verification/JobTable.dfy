/**
  The queue's operations as they run: each updates job rows and attempt records in place, and the
  database holds the table's CHECK constraints and unique indexes against every write.
 */
module JobTable {
  import opened Stock
  import opened Retry
  import opened Queue
  import opened QueueRuns

  class Table {
    var jobs: seq<Job>
    var attempts: seq<Attempt>

    ghost function Value(): Rows
      reads this
    {
      Rows(jobs, attempts)
    }

    /** What the database enforces, whoever calls and however late. */
    ghost predicate Valid()
      reads this
    {
      && (forall i :: 0 <= i < |jobs| ==> Checked(jobs[i]))
      && OneRunning(jobs)
      && OnePending(jobs)
    }

    constructor ()
      ensures Value() == Rows([], []) && Valid()
    {
      jobs, attempts := [], [];
    }

    /** Overwrites one row unless an index forbids it. */
    method Update(id: nat, row: Job) returns (refused: Option<string>)
      requires Valid() && id < |jobs| && Checked(row)
      modifies this`jobs
      ensures Valid()
      ensures refused == if !OneRunning(old(jobs)[id := row]) then Some(ONE_RUNNING)
                         else if !OnePending(old(jobs)[id := row]) then Some(ONE_PENDING) else None
      ensures jobs == if refused.Some? then old(jobs) else old(jobs)[id := row]
    {
      var after := jobs[id := row];
      if !OneRunning(after) {
        return Some(ONE_RUNNING);
      }
      if !OnePending(after) {
        return Some(ONE_PENDING);
      }
      jobs := after;
      refused := None;
    }

    /** Overwrites a row with one no index covers, or one that was running already. */
    method Overwrite(id: nat, row: Job)
      requires Valid() && id < |jobs| && Checked(row) && row.status != Ready
      requires row.status == Running ==> jobs[id].status == Running && row.serializationKey == jobs[id].serializationKey
      modifies this`jobs
      ensures Valid()
      ensures jobs == old(jobs)[id := row]
    {
      RunningKept(jobs, id, row);
      PendingKept(jobs, id, row);
      var _ := Update(id, row);
    }

    method CloseAttempt(id: nat, outcome: Outcome)
      modifies this`attempts
      ensures attempts == Close(old(attempts), id, outcome)
    {
      if id < |attempts| {
        attempts := attempts[id := attempts[id].(outcome := outcome)];
      }
    }

    method Enqueue(input: Input) returns (reply: Reply)
      requires Valid()
      modifies this
      ensures Valid()
      ensures Transition(Value(), reply) == EnqueueStep(old(Value()), input)
    {
      if input.maxAttempts < 1 {
        return Refused(POSITIVE_MAX);
      }
      var winner := PendingWith(jobs, input.dedupeKey);
      if winner.Some? {
        return Pending(winner.value, true);
      }
      reply := Pending(|jobs|, false);
      InsertKept(jobs, Fresh(input));
      jobs := jobs + [Fresh(input)];
    }

    method ClaimOnce(options: Options, view: View) returns (reply: Reply)
      requires Valid()
      modifies this
      ensures Valid()
      ensures Transition(Value(), reply) == ClaimStep(old(Value()), options, view)
    {
      var best := Best(jobs, options, view, |jobs|);
      if best.None? {
        return NothingToDo;
      }
      var id := best.value;
      var row := Queue.Taken(jobs[id], options.worker, view.now, options.leaseMs);
      PendingKept(jobs, id, row);
      var refused := Update(id, row);
      if refused.Some? {
        return Refused(refused.value);
      }
      reply := Claimed(Handed(id, |attempts|, options.worker, row.attempts, row.maxAttempts, row.expiresAt));
      attempts := attempts + [Attempt(id, Latest(attempts, id) + 1, Open)];
    }

    /** Tries again while the serialization index says another worker got there first. */
    method Claim(options: Options, views: seq<View>) returns (reply: Reply)
      requires Valid() && |views| == CLAIM_CONTEST_LIMIT
      modifies this
      ensures Valid()
      ensures Transition(Value(), reply) == ClaimAmong(old(Value()), options, views)
    {
      for contest := 0 to CLAIM_CONTEST_LIMIT
        invariant Valid() && Value() == old(Value())
        invariant ClaimAmong(old(Value()), options, views) == ClaimAmong(old(Value()), options, views[contest..])
      {
        var answer := ClaimOnce(options, views[contest]);
        assert views[contest..][1..] == views[contest + 1..];
        if answer != Refused(ONE_RUNNING) {
          return answer;
        }
      }
      reply := NothingToDo;
    }

    method Heartbeat(id: nat, worker: nat, now: int, leaseMs: int) returns (reply: Reply)
      requires Valid()
      modifies this
      ensures Valid()
      ensures Transition(Value(), reply) == HeartbeatStep(old(Value()), id, worker, now, leaseMs)
    {
      if id < |jobs| && jobs[id].status == Running && jobs[id].claim.Some? && jobs[id].claim.value.worker == worker {
        Overwrite(id, jobs[id].(claim := Some(Queue.Claim(worker, now + leaseMs))));
        return Told(true);
      }
      reply := Told(false);
    }

    method Succeed(id: nat, attemptId: nat) returns (reply: Reply)
      requires Valid()
      modifies this
      ensures Valid()
      ensures Transition(Value(), reply) == SucceedStep(old(Value()), id, attemptId)
    {
      if id < |jobs| {
        Overwrite(id, Ended(jobs[id], Succeeded));
      }
      CloseAttempt(attemptId, Done);
      reply := Told(true);
    }

    method Supersede(id: nat, attemptId: Option<nat>) returns (reply: Reply)
      requires Valid()
      modifies this
      ensures Valid()
      ensures Transition(Value(), reply) == SupersedeStep(old(Value()), id, attemptId)
    {
      if id < |jobs| && (jobs[id].status == Ready || jobs[id].status == Running) {
        Overwrite(id, Ended(jobs[id], Cancelled));
      }
      if attemptId.Some? {
        CloseAttempt(attemptId.value, Superseded);
      }
      reply := Told(true);
    }

    method Fail(job: Handed, retryable: bool, retryAfterMs: Option<int>, now: int, jitter: nat) returns (reply: Reply)
      requires Valid()
      modifies this
      ensures Valid()
      ensures Transition(Value(), reply) == FailStep(old(Value()), job, retryable, retryAfterMs, now, jitter)
    {
      var decision := Decide(job, retryable, retryAfterMs, now, jitter);
      if job.id < |jobs| {
        var row := Settled(jobs[job.id], decision);
        RunningKept(jobs, job.id, row);
        var refused := Update(job.id, row);
        if refused.Some? {
          return Refused(refused.value);
        }
      }
      CloseAttempt(job.attemptId, Failed);
      reply := Decided(decision);
    }

    /** One statement for all of them: either every lost job moves or none does. */
    method ReclaimExpired(now: int, locked: set<nat>) returns (reply: Reply)
      requires Valid()
      modifies this
      ensures Valid()
      ensures Transition(Value(), reply) == ReclaimStep(old(Value()), now, locked)
    {
      var after := ReopenLost(jobs, now, locked);
      if !OnePending(after) {
        return Refused(ONE_PENDING);
      }
      reply := Counted(ClosingCount(Rows(jobs, attempts), now, locked, |attempts|));
      var closed := CloseLost(Rows(jobs, attempts), now, locked);
      ReopeningKept(jobs, now, locked);
      jobs, attempts := after, closed;
    }

    method ExpireOverdue(now: int) returns (reply: Reply)
      requires Valid()
      modifies this
      ensures Valid()
      ensures Transition(Value(), reply) == ExpireStep(old(Value()), now)
    {
      reply := Counted(OverdueCount(jobs, now));
      ExpiringKept(jobs, now);
      jobs := Queue.Expire(jobs, now);
    }

    method Release(id: nat, attemptId: nat, worker: nat) returns (reply: Reply)
      requires Valid()
      modifies this
      ensures Valid()
      ensures Transition(Value(), reply) == ReleaseStep(old(Value()), id, attemptId, worker)
    {
      if id < |jobs| && jobs[id].status == Running && jobs[id].claim.Some? && jobs[id].claim.value.worker == worker {
        RunningKept(jobs, id, GivenBack(jobs[id]));
        var refused := Update(id, GivenBack(jobs[id]));
        if refused.Some? {
          return Refused(refused.value);
        }
      }
      CloseAttempt(attemptId, Reclaimed);
      reply := Told(true);
    }

    method Replay(id: nat, now: int, windowMs: int) returns (reply: Reply)
      requires Valid()
      modifies this
      ensures Valid()
      ensures Transition(Value(), reply) == ReplayStep(old(Value()), id, now, windowMs)
    {
      if id >= |jobs| || jobs[id].status != Dead {
        return Told(false);
      }
      var row := Replayed(jobs[id], now, windowMs);
      RunningKept(jobs, id, row);
      var refused := Update(id, row);
      reply := if refused.Some? then Refused(refused.value) else Told(true);
    }
  }

  lemma InsertKept(jobs: seq<Job>, j: Job)
    requires OneRunning(jobs) && OnePending(jobs) && j.status == Ready
    requires forall k :: 0 <= k < |jobs| && jobs[k].status == Ready ==> !SameKey(jobs[k].dedupeKey, j.dedupeKey)
    ensures OneRunning(jobs + [j]) && OnePending(jobs + [j])
  {
    var after := jobs + [j];
    forall a, b | 0 <= a < b < |after| ensures !Twins(after[a], after[b]) && !Contest(after[a], after[b]) {
      if b < |jobs| {
        assert !Twins(jobs[a], jobs[b]) && !Contest(jobs[a], jobs[b]);
      }
    }
  }

  lemma ReopeningKept(jobs: seq<Job>, now: int, locked: set<nat>)
    requires OneRunning(jobs)
    ensures OneRunning(ReopenLost(jobs, now, locked))
  {
    var after := ReopenLost(jobs, now, locked);
    forall a, b | 0 <= a < b < |after| ensures !Contest(after[a], after[b]) {
      assert !Contest(jobs[a], jobs[b]);
    }
  }

  lemma ExpiringKept(jobs: seq<Job>, now: int)
    requires OneRunning(jobs) && OnePending(jobs)
    ensures OneRunning(Queue.Expire(jobs, now)) && OnePending(Queue.Expire(jobs, now))
  {
    var after := Queue.Expire(jobs, now);
    forall a, b | 0 <= a < b < |after| ensures !Contest(after[a], after[b]) && !Twins(after[a], after[b]) {
      assert !Contest(jobs[a], jobs[b]) && !Twins(jobs[a], jobs[b]);
    }
  }
}
