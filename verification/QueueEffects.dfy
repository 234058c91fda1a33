/**
  What each queue operation does, in terms of rows and attempt records alone: which job a claim takes
  and until when it is safe, and what every other operation writes.
 */
module QueueEffects {
  import opened Stock
  import opened Retry
  import opened Queue
  import opened QueueRuns
  import QueueRefusals

  // ---------------------------------------------------------------------------------------
  // Claiming
  // ---------------------------------------------------------------------------------------

  /** A claim may take the job: it waits, it is due, its window is open, an attempt is left, the worker
      asks for such jobs, and no running job it can see is serialized with it. */
  ghost predicate MayTake(q: Rows, o: Options, v: View, c: nat)
    requires c < |q.jobs|
  {
    var j := q.jobs[c];
    && c !in v.locked
    && j.status == Ready && j.runAt <= v.now < j.expiresAt && j.attempts < j.maxAttempts
    && (o.kinds == [] || j.kind in o.kinds)
    && (o.maxPriority.Some? ==> j.priority <= o.maxPriority.value)
    && forall k :: 0 <= k < |q.jobs| && k !in v.hidden && q.jobs[k].status == Running ==>
         !(j.serializationKey.Some? && q.jobs[k].serializationKey == j.serializationKey)
  }

  /** The lower priority number goes first, then the earlier due time, then the older job. */
  ghost predicate GoesFirst(q: Rows, a: nat, b: nat)
    requires a < |q.jobs| && b < |q.jobs|
  {
    var x, y := q.jobs[a], q.jobs[b];
    x.priority < y.priority || (x.priority == y.priority && (x.runAt < y.runAt || (x.runAt == y.runAt && a <= b)))
  }

  lemma MayTakeIs(q: Rows, o: Options, v: View, c: nat)
    requires c < |q.jobs|
    ensures MayTake(q, o, v, c) <==> Claimable(q.jobs, o, v, c)
  {
  }

  /** A claim takes the job that goes first of all it may take, and finds nothing exactly when there is
      none; the row is the worker's for as long as it asked, from then, and a record numbered after all
      the job's claims is open. */
  lemma ClaimedExactly(q: Rows, o: Options, v: View)
    requires Sound(q)
    ensures var t := ClaimStep(q, o, v);
            && (t.reply == NothingToDo <==> forall c: nat :: c < |q.jobs| ==> !MayTake(q, o, v, c))
            && (!t.reply.Claimed? ==> t.queue == q)
            && (t.reply.Claimed? ==>
                  var id := t.reply.job.id;
                  && id < |q.jobs| && MayTake(q, o, v, id)
                  && (forall c: nat :: c < |q.jobs| && MayTake(q, o, v, c) ==> GoesFirst(q, id, c))
                  && (var j := q.jobs[id];
                      && t.reply.job == Handed(id, |q.attempts|, o.worker, j.attempts + 1, j.maxAttempts, j.expiresAt)
                      && t.queue.jobs == q.jobs[id := j.(status := Running, attempts := j.attempts + 1,
                                                         claim := Some(Queue.Claim(o.worker, v.now + o.leaseMs)))]
                      && t.queue.attempts == q.attempts + [Attempt(id, ClaimsOf(q.attempts, id) + 1, Open)]))
  {
    BestIsMostUrgent(q.jobs, o, v, |q.jobs|);
    forall c: nat | c < |q.jobs| ensures MayTake(q, o, v, c) <==> Claimable(q.jobs, o, v, c) {
      MayTakeIs(q, o, v, c);
    }
    var best := Best(q.jobs, o, v, |q.jobs|);
    if best.Some? {
      LatestCountsClaims(q.attempts, best.value);
    }
  }

  /** The first try that is not lost to another claim decides. */
  lemma {:induction false} FirstTryDecides(q: Rows, o: Options, views: seq<View>, i: nat)
    requires i < |views| && ClaimStep(q, o, views[i]).reply != Refused(ONE_RUNNING)
    requires forall j :: 0 <= j < i ==> ClaimStep(q, o, views[j]).reply == Refused(ONE_RUNNING)
    ensures ClaimAmong(q, o, views) == ClaimStep(q, o, views[i])
  {
    if i > 0 {
      forall j | 0 <= j < i - 1 ensures ClaimStep(q, o, views[1..][j]).reply == Refused(ONE_RUNNING) {
        assert views[1..][j] == views[j + 1];
      }
      FirstTryDecides(q, o, views[1..], i - 1);
    }
  }

  // ---------------------------------------------------------------------------------------
  // A claim is safe until its deadline
  // ---------------------------------------------------------------------------------------

  /** The operation makes the job a worker's from time `t` on, or confirms it. */
  ghost predicate Leases(w: World, op: Op, id: nat, t: int, leaseMs: int) {
    || (op.Claim? && op.view.now == t && op.options.leaseMs == leaseMs
        && StepOf(w, op).reply.Claimed? && StepOf(w, op).reply.job.id == id)
    || (op.Heartbeat? && op.id == id && op.now == t && op.leaseMs == leaseMs && StepOf(w, op).reply == Told(true))
  }

  /** Apart from sweeps up to the deadline, the run leaves the row alone. */
  ghost predicate Undisturbed(w: World, ops: seq<Op>, id: nat, deadline: int)
    requires IsRun(w, ops) && id < |w.queue.jobs|
    decreases ops
  {
    ops == []
    || (var next := Next(w, ops[0]);
        && id < |next.queue.jobs|
        && ((ops[0].Reclaim? && ops[0].now <= deadline) || next.queue.jobs[id] == w.queue.jobs[id])
        && Undisturbed(next, ops[1..], id, deadline))
  }

  ghost predicate QuietRun(w: World, ops: seq<Op>, id: nat, deadline: int) {
    IsRun(w, ops) && id < |w.queue.jobs| && Undisturbed(w, ops, id, deadline)
  }

  /** The job is claimed until the deadline, and record `a` is its open one. */
  ghost predicate ClaimedUntil(w: World, id: nat, a: nat, deadline: int) {
    && id < |w.queue.jobs| && w.queue.jobs[id].status == Running
    && w.queue.jobs[id].claim.Some? && w.queue.jobs[id].claim.value.leaseExpiresAt == deadline
    && a < |w.queue.attempts| && w.queue.attempts[a].job == id && w.queue.attempts[a].outcome == Open
  }

  lemma LeaseStarts(w: World, op: Op, id: nat, t: int, leaseMs: int) returns (a: nat)
    requires Inv(w) && Allowed(w, op) && Leases(w, op, id, t, leaseMs)
    ensures Inv(Next(w, op)) && ClaimedUntil(Next(w, op), id, a, t + leaseMs)
  {
    NextKeeps(w, op);
    a := SomeOpen(Next(w, op).queue.attempts, id);
  }

  /** While the row of a claimed job stays as it is, so does its open record. */
  lemma RecordStays(w: World, op: Op, id: nat, a: nat, deadline: int)
    requires Inv(w) && Allowed(w, op) && ClaimedUntil(w, id, a, deadline)
    requires id < |Next(w, op).queue.jobs| && Next(w, op).queue.jobs[id] == w.queue.jobs[id]
    ensures a < |Next(w, op).queue.attempts| && Next(w, op).queue.attempts[a] == w.queue.attempts[a]
  {
    var q' := Next(w, op).queue;
    NextKeeps(w, op);
    if !StepOf(w, op).reply.Claimed? {
      if op.Succeed? || op.Supersede? || op.Fail? || op.Release? {
        SettlementsUntouched(w, op);
      } else {
        OthersUntouched(w, op);
      }
      var b := SomeOpen(q'.attempts, id);
      OneOpen(w.queue, a, b, id);
    }
  }

  lemma OneOpen(q: Rows, a: nat, b: nat, id: nat)
    requires Accounted(q) && id < |q.jobs| && a < |q.attempts| && b < |q.attempts|
    requires q.attempts[a].job == id == q.attempts[b].job && q.attempts[a].outcome == Open == q.attempts[b].outcome
    ensures a == b
  {
    if a < b {
      OnlyOne(q.attempts, a, b, id);
    } else if b < a {
      OnlyOne(q.attempts, b, a, id);
    }
  }

  /** A sweep up to the deadline leaves the row alone. */
  lemma EarlySweep(q: Rows, now: int, locked: set<nat>, id: nat)
    requires id < |q.jobs| && (q.jobs[id].claim.Some? ==> now <= q.jobs[id].claim.value.leaseExpiresAt)
    ensures id < |ReclaimStep(q, now, locked).queue.jobs| && ReclaimStep(q, now, locked).queue.jobs[id] == q.jobs[id]
  {
  }

  lemma {:induction false} ClaimLasts(w: World, ops: seq<Op>, id: nat, a: nat, deadline: int)
    requires Inv(w) && ClaimedUntil(w, id, a, deadline) && QuietRun(w, ops, id, deadline)
    ensures Inv(After(w, ops)) && ClaimedUntil(After(w, ops), id, a, deadline)
    ensures After(w, ops).queue.jobs[id] == w.queue.jobs[id] && After(w, ops).queue.attempts[a] == w.queue.attempts[a]
    decreases ops
  {
    if ops != [] {
      var next := Next(w, ops[0]);
      NextKeeps(w, ops[0]);
      if ops[0].Reclaim? && ops[0].now <= deadline {
        EarlySweep(w.queue, ops[0].now, ops[0].locked, id);
      }
      RecordStays(w, ops[0], id, a, deadline);
      ClaimLasts(next, ops[1..], id, a, deadline);
    }
  }

  /** The job is still claimed as it was, and its open record is the same. */
  ghost predicate ClaimKept(before: Rows, q: Rows, id: nat, a: nat) {
    && id < |before.jobs| && id < |q.jobs| && q.jobs[id] == before.jobs[id] && q.jobs[id].status == Running
    && a < |before.attempts| && a < |q.attempts| && q.attempts[a] == before.attempts[a]
    && q.attempts[a].job == id && q.attempts[a].outcome == Open
  }

  /** What a sweep does to a claim with that deadline: nothing up to it, and after it, unless it is refused
      or the row is locked, the job is ready again, or dead without an attempt left, and its record closed. */
  ghost predicate SweptAfter(q: Rows, id: nat, a: nat, deadline: int, now: int, locked: set<nat>)
    requires id < |q.jobs| && a < |q.attempts|
  {
    var t := ReclaimStep(q, now, locked);
    && |t.queue.jobs| == |q.jobs| && |t.queue.attempts| == |q.attempts|
    && if now <= deadline || id in locked || t.reply.Refused?
       then t.queue.jobs[id] == q.jobs[id] && t.queue.attempts[a] == q.attempts[a]
       else && t.queue.jobs[id] == q.jobs[id].(status := if q.jobs[id].attempts < q.jobs[id].maxAttempts then Ready else Dead,
                                               claim := None)
            && t.queue.attempts[a] == q.attempts[a].(outcome := Reclaimed)
  }

  lemma SweepAtDeadline(q: Rows, id: nat, a: nat, deadline: int, now: int, locked: set<nat>)
    requires id < |q.jobs| && q.jobs[id].status == Running
    requires q.jobs[id].claim.Some? && q.jobs[id].claim.value.leaseExpiresAt == deadline
    requires a < |q.attempts| && q.attempts[a].job == id && q.attempts[a].outcome == Open
    ensures SweptAfter(q, id, a, deadline, now, locked)
  {
  }

  lemma ProtectedRun(begun: World, ops: seq<Op>, id: nat, a: nat, deadline: int, now: int, locked: set<nat>)
    requires Inv(begun) && ClaimedUntil(begun, id, a, deadline) && QuietRun(begun, ops, id, deadline)
    ensures ClaimKept(begun.queue, After(begun, ops).queue, id, a)
    ensures SweptAfter(After(begun, ops).queue, id, a, deadline, now, locked)
  {
    ClaimLasts(begun, ops, id, a, deadline);
    SweepAtDeadline(After(begun, ops).queue, id, a, deadline, now, locked);
  }

  /** A claim, or an accepted heartbeat, keeps the job for its worker until its time and the lease are
      over: whatever runs meanwhile, sweeps included, as long as nothing else settles or renews that job,
      row and record are as they were. The first sweep after that, unless it is refused or the row is
      locked, takes the claim away. */
  lemma LeaseProtects(w: World, op: Op, begun: World, ops: seq<Op>, id: nat, t: int, leaseMs: int, deadline: int, now: int, locked: set<nat>)
    returns (a: nat)
    requires Inv(w) && Allowed(w, op) && begun == Next(w, op) && Leases(w, op, id, t, leaseMs) && deadline == t + leaseMs
    requires QuietRun(begun, ops, id, deadline)
    ensures ClaimKept(begun.queue, After(begun, ops).queue, id, a)
    ensures SweptAfter(After(begun, ops).queue, id, a, deadline, now, locked)
  {
    a := LeaseStarts(w, op, id, t, leaseMs);
    ProtectedRun(begun, ops, id, a, deadline, now, locked);
  }

  // ---------------------------------------------------------------------------------------
  // Every other operation
  // ---------------------------------------------------------------------------------------

  /** Only the job and the record named have changed, to `j` and to `outcome`. */
  ghost predicate Wrote(q: Rows, q': Rows, id: nat, j: Job, a: nat, outcome: Outcome)
    requires id < |q.jobs| && a < |q.attempts|
  {
    q' == Rows(q.jobs[id := j], q.attempts[a := q.attempts[a].(outcome := outcome)])
  }

  /** A job waits under the dedupe key. */
  ghost predicate Waits(q: Rows, key: Option<nat>) {
    key.Some? && exists k :: 0 <= k < |q.jobs| && q.jobs[k].status == Ready && q.jobs[k].dedupeKey == key
  }

  /** The job of an open claim. */
  ghost predicate OpenClaim(w: World, a: nat, id: nat) {
    && a < |w.handed| && a < |w.queue.attempts| && w.queue.attempts[a].outcome == Open
    && id == w.queue.attempts[a].job < |w.queue.jobs|
  }

  /** Ending an open claim: the job has succeeded, or is cancelled, and the record says so. */
  lemma EndedEffect(w: World, a: nat, id: nat)
    requires Inv(w) && OpenClaim(w, a, id)
    ensures var j := w.queue.jobs[id];
            && Wrote(w.queue, StepOf(w, Op.Succeed(a)).queue, id, j.(status := Succeeded, claim := None), a, Done)
            && Wrote(w.queue, StepOf(w, Op.Supersede(a)).queue, id, j.(status := Cancelled, claim := None), a, Superseded)
  {
    OpenIsRunning(w, a);
  }

  /** A failed attempt is retried exactly when it could help, an attempt is left, and its delay (the
      provider's own when it names one) ends inside an unexpired window; then the job waits for that time,
      and is dead otherwise. A retry is refused, and nothing changes, exactly when another job waits under
      the same dedupe key. */
  lemma FailedExactly(w: World, a: nat, id: nat, retryable: bool, retryAfterMs: Option<int>, now: int, jitter: nat)
    requires Inv(w) && OpenClaim(w, a, id)
    ensures var t, j := StepOf(w, Op.Fail(a, retryable, retryAfterMs, now, jitter)), w.queue.jobs[id];
            var delay := if retryAfterMs.None? then jitter else if retryAfterMs.value < 0 then 0 else retryAfterMs.value;
            var again := retryable && j.attempts < j.maxAttempts && now < j.expiresAt && now + delay <= j.expiresAt;
            if again && Waits(w.queue, j.dedupeKey) then t.queue == w.queue && t.reply.Refused?
            else
              && t.reply.Decided?
              && Wrote(w.queue, t.queue, id,
                       if again then j.(status := Ready, runAt := now + delay, claim := None) else j.(status := Dead, claim := None),
                       a, Outcome.Failed)
  {
    OpenIsRunning(w, a);
    QueueRefusals.FailRefusedExactly(w, a, retryable, retryAfterMs, now, jitter);
    RetriedExactly(w.handed[a].attempts, w.handed[a].maxAttempts, now, w.handed[a].expiresAt, retryable, retryAfterMs, jitter);
  }

  /** A claim handed back gives the attempt back: the job waits again as it did, unless another job waits
      under its dedupe key by now. */
  lemma HandedBackExactly(w: World, a: nat, id: nat)
    requires Inv(w) && OpenClaim(w, a, id)
    ensures var t, j := StepOf(w, Op.Release(a)), w.queue.jobs[id];
            if Waits(w.queue, j.dedupeKey) then t.queue == w.queue && t.reply.Refused?
            else Wrote(w.queue, t.queue, id, j.(status := Ready, attempts := j.attempts - 1, claim := None), a, Reclaimed)
  {
    OpenIsRunning(w, a);
    QueueRefusals.ReleaseRefusedExactly(w, a);
  }

  /** A heartbeat moves the deadline of the claim its sender holds, and nothing else; anyone else's is
      answered no and changes nothing. */
  lemma HeartbeatExactly(q: Rows, id: nat, worker: nat, now: int, leaseMs: int)
    requires Sound(q)
    ensures var t := HeartbeatStep(q, id, worker, now, leaseMs);
            var holds := id < |q.jobs| && q.jobs[id].status == Running
                         && q.jobs[id].claim.Some? && q.jobs[id].claim.value.worker == worker;
            && t.reply == Told(holds)
            && t.queue == if holds then q.(jobs := q.jobs[id := q.jobs[id].(claim := Some(Queue.Claim(worker, now + leaseMs)))]) else q
  {
  }

  /** A job withdrawn from outside is cancelled unless it has ended; no record is touched. */
  lemma WithdrawnExactly(w: World, id: nat)
    ensures var q' := StepOf(w, Op.Withdraw(id)).queue;
            q' == if id < |w.queue.jobs| && (w.queue.jobs[id].status == Ready || w.queue.jobs[id].status == Running)
                  then w.queue.(jobs := w.queue.jobs[id := w.queue.jobs[id].(status := Cancelled, claim := None)])
                  else w.queue
  {
  }

  /** A new job waits from its time until its window closes, with all its attempts; under a dedupe key
      that waits already there is none, and the answer names the one that waits. */
  lemma EnqueuedExactly(q: Rows, input: Input)
    requires Sound(q)
    ensures var t := EnqueueStep(q, input);
            if input.maxAttempts < 1 then t.queue == q && t.reply.Refused?
            else if Waits(q, input.dedupeKey) then
              && t.queue == q && t.reply.Pending? && t.reply.deduplicated && t.reply.id < |q.jobs|
              && q.jobs[t.reply.id].status == Ready && q.jobs[t.reply.id].dedupeKey == input.dedupeKey
            else
              && t.reply == Pending(|q.jobs|, false)
              && t.queue == q.(jobs := q.jobs + [Job(input.kind, input.priority, input.serializationKey, input.dedupeKey, Ready, 0,
                                                     input.maxAttempts, input.runAt, input.runAt + input.windowMs, None)])
  {
  }

  /** Replaying gives a dead job all its attempts and a fresh window from now, unless another job waits
      under its dedupe key; any other job is left alone. */
  lemma ReplayedExactly(q: Rows, id: nat, now: int, windowMs: int)
    requires Sound(q)
    ensures var t := ReplayStep(q, id, now, windowMs);
            if id >= |q.jobs| || q.jobs[id].status != Dead then t == Transition(q, Told(false))
            else if Waits(q, q.jobs[id].dedupeKey) then t.queue == q && t.reply.Refused?
            else && t.reply == Told(true)
                 && t.queue == q.(jobs := q.jobs[id := q.jobs[id].(status := Ready, attempts := 0, runAt := now, expiresAt := now + windowMs)])
  {
    if id < |q.jobs| {
      QueueRefusals.ReplayExactly(q, id, now, windowMs);
    }
  }

  /** The jobs that wait although their window has closed. */
  ghost function TooLate(q: Rows, now: int): set<nat> {
    set id: nat | id < |q.jobs| && q.jobs[id].status == Ready && q.jobs[id].expiresAt <= now
  }

  lemma {:induction false} OverdueIsTooLate(jobs: seq<Job>, attempts: seq<Attempt>, now: int)
    ensures OverdueCount(jobs, now) == |TooLate(Rows(jobs, attempts), now)|
  {
    var late := TooLate(Rows(jobs, attempts), now);
    if jobs == [] {
      assert late == {};
    } else {
      var n := |jobs| - 1;
      OverdueIsTooLate(jobs[..n], attempts, now);
      var before := TooLate(Rows(jobs[..n], attempts), now);
      if jobs[n].status == Ready && jobs[n].expiresAt <= now {
        assert late == before + {n};
      } else {
        assert late == before;
      }
    }
  }

  /** Exactly the waiting jobs whose window has closed end as dead, and their number is the answer. */
  lemma ExpiredExactly(q: Rows, now: int)
    ensures var t := ExpireStep(q, now);
            && t.reply == Counted(|TooLate(q, now)|)
            && t.queue.attempts == q.attempts && |t.queue.jobs| == |q.jobs|
            && forall id: nat :: id < |q.jobs| ==>
                 t.queue.jobs[id] == if id in TooLate(q, now) then q.jobs[id].(status := Dead) else q.jobs[id]
  {
    OverdueIsTooLate(q.jobs, q.attempts, now);
  }
}
