/**
  Settling a claim that has been taken away.

  `succeed`, `fail` and `supersede` do not compare the caller with the row's holder, and `release`
  compares only the worker (packages/jobs/src/queue.ts). Every operation, in time or late, keeps the
  queue invariant if and only if a guard on the job's row holds beforehand.
 */
module LateSettlement {
  import opened Stock
  import opened Retry
  import opened Queue
  import opened QueueRuns
  import QueueRefusals

  /** The job a claim was handed out for. */
  function JobOf(w: World, a: nat): Job
    requires a < |w.handed| && w.handed[a].id < |w.queue.jobs|
  {
    w.queue.jobs[w.handed[a].id]
  }

  /** The guard: the claim is still open; or nobody else is running the job by now, and a failure
      that requeues it finds an attempt left; or the dedupe index will refuse the operation anyway. */
  ghost predicate Harmless(w: World, op: Op)
    requires Inv(w) && Named(w, op)
  {
    match op
    case Succeed(a) => IsOpen(w, a) || JobOf(w, a).status != Running
    case Supersede(a) => IsOpen(w, a) || JobOf(w, a).status != Running
    case Fail(a, retryable, retryAfterMs, now, jitter) =>
      var again := Decide(w.handed[a], retryable, retryAfterMs, now, jitter).Again?;
      || IsOpen(w, a)
      || (again && QueueRefusals.Taken(w.queue.jobs, w.handed[a].id))
      || (JobOf(w, a).status != Running && (again ==> JobOf(w, a).attempts < JobOf(w, a).maxAttempts))
    case Release(a) =>
      || IsOpen(w, a)
      || !HeldBy(JobOf(w, a), w.handed[a].worker)
      || QueueRefusals.Taken(w.queue.jobs, w.handed[a].id)
    case Withdraw(id) => id >= |w.queue.jobs| || w.queue.jobs[id].status != Running
    case _ => true
  }

  predicate HeldBy(j: Job, worker: nat) {
    j.status == Running && j.claim.Some? && j.claim.value.worker == worker
  }

  // ---------------------------------------------------------------------------------------
  // One row and one closed record
  // ---------------------------------------------------------------------------------------

  /** Rewriting a record that is closed opens nothing and closes nothing. */
  lemma {:induction false} ClosedAgain(attempts: seq<Attempt>, a: nat, outcome: Outcome, job: nat)
    requires a < |attempts| ==> attempts[a].outcome != Open
    requires outcome != Open
    ensures OpenOf(Close(attempts, a, outcome), job) == OpenOf(attempts, job)
  {
    if attempts != [] {
      var n := |attempts| - 1;
      ClosedAgain(attempts[..n], a, outcome, job);
      assert Close(attempts, a, outcome)[..n] == Close(attempts[..n], a, outcome);
    }
  }

  lemma RecordsKept(q: Rows, a: nat, outcome: Outcome)
    requires Sound(q) && outcome != Open && (a < |q.attempts| ==> q.attempts[a].outcome != Open)
    ensures Sound(q.(attempts := Close(q.attempts, a, outcome)))
  {
    var after := Close(q.attempts, a, outcome);
    NumberedKept(q.attempts, after);
    forall id: nat | id < |q.jobs| ensures OpenOf(after, id) == if q.jobs[id].status == Running then 1 else 0 {
      ClosedAgain(q.attempts, a, outcome, id);
    }
  }

  /** A late settlement that leaves the job alone does no harm. */
  lemma LateNothing(w: World, a: nat, outcome: Outcome)
    requires Inv(w) && a < |w.handed| && !IsOpen(w, a) && outcome != Open
    ensures Inv(World(w.queue.(attempts := Close(w.queue.attempts, a, outcome)), w.handed))
  {
    RecordsKept(w.queue, a, outcome);
    RowsTracked(w, w.queue.jobs, a, outcome);
  }

  lemma RowsTracked(w: World, jobs: seq<Job>, a: nat, outcome: Outcome)
    requires Inv(w) && outcome != Open && |jobs| == |w.queue.jobs|
    requires forall k :: 0 <= k < |jobs| ==> jobs[k] == w.queue.jobs[k] || jobs[k].status != Running
    requires Sound(Rows(jobs, Close(w.queue.attempts, a, outcome)))
    ensures Tracked(World(Rows(jobs, Close(w.queue.attempts, a, outcome)), w.handed))
  {
    NothingUntouched(w.queue);
    TrackedKept(w, Rows(jobs, Close(w.queue.attempts, a, outcome)));
  }

  /** The invariant, and already its part about the queue alone, holds exactly under the guard. */
  ghost predicate Survives(after: World, guard: bool) {
    (Inv(after) <==> guard) && (Sound(after.queue) <==> guard)
  }

  /** A late settlement that does write the job is harmless exactly when the job was not running and
      its new row is within its budget. */
  lemma LateRow(w: World, a: nat, j: Job, outcome: Outcome)
    requires Inv(w) && a < |w.handed| && !IsOpen(w, a) && outcome != Open
    requires j.status != Running && OnePending(w.queue.jobs[w.handed[a].id := j])
    ensures var after := World(Rows(w.queue.jobs[w.handed[a].id := j], Close(w.queue.attempts, a, outcome)), w.handed);
            Survives(after, JobOf(w, a).status != Running && Budgeted(j))
  {
    var id := w.handed[a].id;
    var jobs, records := w.queue.jobs[id := j], Close(w.queue.attempts, a, outcome);
    if JobOf(w, a).status == Running {
      ClosedAgain(w.queue.attempts, a, outcome, id);
      assert OpenOf(records, id) == 1 && jobs[id].status != Running;
    } else if Budgeted(j) {
      IdleKeeps(w.queue, id, j);
      RecordsKept(w.queue.(jobs := jobs), a, outcome);
      RowsTracked(w, jobs, a, outcome);
    } else {
      assert !Budgeted(jobs[id]);
    }
  }

  // ---------------------------------------------------------------------------------------
  // Each operation
  // ---------------------------------------------------------------------------------------

  ghost predicate KeptExactlyIf(w: World, op: Op, guard: bool)
    requires Named(w, op)
  {
    Survives(Next(w, op), guard)
  }

  lemma LateEnding(w: World, a: nat)
    requires Inv(w) && a < |w.handed| && !IsOpen(w, a)
    ensures KeptExactlyIf(w, Op.Succeed(a), JobOf(w, a).status != Running)
    ensures KeptExactlyIf(w, Op.Supersede(a), JobOf(w, a).status != Running)
  {
    var id, j := w.handed[a].id, JobOf(w, a);
    assert Budgeted(j);
    PendingKept(w.queue.jobs, id, Ended(j, Succeeded));
    PendingKept(w.queue.jobs, id, Ended(j, Cancelled));
    LateRow(w, a, Ended(j, Succeeded), Done);
    LateRow(w, a, Ended(j, Cancelled), Superseded);
    LateNothing(w, a, Superseded);
  }

  lemma FailNext(w: World, a: nat, retryable: bool, retryAfterMs: Option<int>, now: int, jitter: nat)
    requires Inv(w) && a < |w.handed|
    ensures var h := w.handed[a];
            var jobs := w.queue.jobs[h.id := Settled(JobOf(w, a), Decide(h, retryable, retryAfterMs, now, jitter))];
            Next(w, Op.Fail(a, retryable, retryAfterMs, now, jitter))
            == if OnePending(jobs) then World(Rows(jobs, Close(w.queue.attempts, a, Failed)), w.handed) else w
  {
  }

  lemma LateFailure(w: World, a: nat, retryable: bool, retryAfterMs: Option<int>, now: int, jitter: nat)
    requires Inv(w) && a < |w.handed| && !IsOpen(w, a)
    ensures var op := Op.Fail(a, retryable, retryAfterMs, now, jitter);
            KeptExactlyIf(w, op, Harmless(w, op))
  {
    var h, j := w.handed[a], JobOf(w, a);
    var d := Decide(h, retryable, retryAfterMs, now, jitter);
    assert Budgeted(j);
    FailNext(w, a, retryable, retryAfterMs, now, jitter);
    if d.Again? {
      QueueRefusals.BackToReady(w.queue.jobs, h.id, Settled(j, d));
    } else {
      PendingKept(w.queue.jobs, h.id, Settled(j, d));
    }
    if OnePending(w.queue.jobs[h.id := Settled(j, d)]) {
      LateRow(w, a, Settled(j, d), Failed);
    }
  }

  lemma LateRelease(w: World, a: nat)
    requires Inv(w) && a < |w.handed| && !IsOpen(w, a)
    ensures KeptExactlyIf(w, Op.Release(a), Harmless(w, Op.Release(a)))
  {
    var h, j := w.handed[a], JobOf(w, a);
    if HeldBy(j, h.worker) {
      QueueRefusals.BackToReady(w.queue.jobs, h.id, GivenBack(j));
      if OnePending(w.queue.jobs[h.id := GivenBack(j)]) {
        LateRow(w, a, GivenBack(j), Reclaimed);
      }
    } else {
      LateNothing(w, a, Reclaimed);
    }
  }

  lemma Withdrawn(w: World, id: nat)
    requires Inv(w)
    ensures KeptExactlyIf(w, Op.Withdraw(id), id >= |w.queue.jobs| || w.queue.jobs[id].status != Running)
  {
    if id < |w.queue.jobs| {
      if w.queue.jobs[id].status == Running {
        assert OpenOf(w.queue.attempts, id) == 1;
        assert Next(w, Op.Withdraw(id)).queue.jobs[id].status == Cancelled;
      } else {
        NextKeeps(w, Op.Withdraw(id));
      }
    }
  }

  /** Any operation whatever, in time or late, keeps the queue invariant if and only if the guard
      holds before it. */
  lemma HarmlessExactly(w: World, op: Op)
    requires Inv(w) && Named(w, op)
    ensures KeptExactlyIf(w, op, Harmless(w, op))
  {
    match op
    case Succeed(a) => if IsOpen(w, a) { NextKeeps(w, op); } else { LateEnding(w, a); }
    case Supersede(a) => if IsOpen(w, a) { NextKeeps(w, op); } else { LateEnding(w, a); }
    case Fail(a, retryable, retryAfterMs, now, jitter) =>
      if IsOpen(w, a) { NextKeeps(w, op); } else { LateFailure(w, a, retryable, retryAfterMs, now, jitter); }
    case Release(a) => if IsOpen(w, a) { NextKeeps(w, op); } else { LateRelease(w, a); }
    case Withdraw(id) => Withdrawn(w, id);
    case _ => NextKeeps(w, op);
  }

  // ---------------------------------------------------------------------------------------
  // Runs
  // ---------------------------------------------------------------------------------------

  ghost predicate IsHarmlessRun(w: World, ops: seq<Op>)
    requires Inv(w)
    decreases ops
  {
    ops == []
    || (Named(w, ops[0]) && Harmless(w, ops[0])
        && (HarmlessExactly(w, ops[0]); IsHarmlessRun(Next(w, ops[0]), ops[1..])))
  }

  ghost function HarmlessAfter(w: World, ops: seq<Op>): (r: World)
    requires Inv(w) && IsHarmlessRun(w, ops)
    ensures Inv(r)
    decreases ops
  {
    if ops == [] then w
    else
      HarmlessExactly(w, ops[0]);
      HarmlessAfter(Next(w, ops[0]), ops[1..])
  }

  /** The queue invariant over every run whose late settlements meet the guard. */
  lemma LateRunsKeep(ops: seq<Op>)
    requires Inv(EMPTY) && IsHarmlessRun(EMPTY, ops)
    ensures Sound(HarmlessAfter(EMPTY, ops).queue)
  {
  }
}
