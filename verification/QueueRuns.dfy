/**
  What every run of the queue keeps.

  A run is a sequence of operations in which a worker ends a claim at most once: `succeed`, `fail`
  and the rest do not compare the caller with the row's holder, so settling a claim that has been
  taken away can break it; module `LateSettlement` says exactly when. Everything else is arbitrary: times, locked and hidden rows, jitter,
  provider delays, releases and replays.
 */
module QueueRuns {
  import opened Stock
  import opened Retry
  import opened Queue

  /** The queue together with every claim it ever handed out, by attempt id. */
  datatype World = World(queue: Rows, handed: seq<Handed>)

  datatype Op =
    | Enqueue(input: Input)
    | Claim(options: Options, view: View)
    | Heartbeat(id: nat, worker: nat, now: int, leaseMs: int)
    | Succeed(attempt: nat)
    | Supersede(attempt: nat)
    | Withdraw(id: nat)
    | Fail(attempt: nat, retryable: bool, retryAfterMs: Option<int>, now: int, jitter: nat)
    | Reclaim(now: int, locked: set<nat>)
    | Expire(now: int)
    | Release(attempt: nat)
    | Replay(id: nat, now: int, windowMs: int)

  // ---------------------------------------------------------------------------------------
  // Counting claims
  // ---------------------------------------------------------------------------------------

  /** How often a job was claimed. */
  function ClaimsOf(attempts: seq<Attempt>, job: nat): nat {
    if attempts == [] then 0
    else ClaimsOf(attempts[..|attempts| - 1], job) + if attempts[|attempts| - 1].job == job then 1 else 0
  }

  function OpenOf(attempts: seq<Attempt>, job: nat): nat {
    if attempts == [] then 0
    else
      var last := attempts[|attempts| - 1];
      OpenOf(attempts[..|attempts| - 1], job) + if last.job == job && last.outcome == Open then 1 else 0
  }

  lemma CountsAppend(attempts: seq<Attempt>, a: Attempt, job: nat)
    ensures ClaimsOf(attempts + [a], job) == ClaimsOf(attempts, job) + if a.job == job then 1 else 0
    ensures OpenOf(attempts + [a], job) == OpenOf(attempts, job) + if a.job == job && a.outcome == Open then 1 else 0
  {
    assert (attempts + [a])[..|attempts|] == attempts;
  }

  ghost predicate SameClaims(a: seq<Attempt>, b: seq<Attempt>) {
    |a| == |b| && forall i :: 0 <= i < |a| ==> a[i].job == b[i].job && a[i].number == b[i].number
  }

  lemma {:induction false} ClaimsDependOnJobs(a: seq<Attempt>, b: seq<Attempt>, job: nat)
    requires SameClaims(a, b)
    ensures ClaimsOf(a, job) == ClaimsOf(b, job)
  {
    if a != [] {
      ClaimsDependOnJobs(a[..|a| - 1], b[..|b| - 1], job);
    }
  }

  /** A job whose records were left alone has as many open ones as before. */
  lemma {:induction false} OpenUntouched(a: seq<Attempt>, b: seq<Attempt>, job: nat)
    requires SameClaims(a, b)
    requires forall i :: 0 <= i < |a| && a[i].job == job ==> a[i] == b[i]
    ensures OpenOf(a, job) == OpenOf(b, job)
  {
    if a != [] {
      OpenUntouched(a[..|a| - 1], b[..|b| - 1], job);
    }
  }

  lemma {:induction false} NoneOpen(a: seq<Attempt>, job: nat)
    requires forall i :: 0 <= i < |a| && a[i].job == job ==> a[i].outcome != Open
    ensures OpenOf(a, job) == 0
  {
    if a != [] {
      NoneOpen(a[..|a| - 1], job);
    }
  }

  lemma {:induction false} OpenIsCounted(a: seq<Attempt>, i: nat, job: nat)
    requires i < |a| && a[i].job == job && a[i].outcome == Open
    ensures OpenOf(a, job) >= 1
  {
    if i < |a| - 1 {
      OpenIsCounted(a[..|a| - 1], i, job);
    }
  }

  lemma {:induction false} OnlyOne(a: seq<Attempt>, i: nat, j: nat, job: nat)
    requires i < j < |a| && a[i].job == job == a[j].job && a[i].outcome == Open == a[j].outcome
    ensures OpenOf(a, job) >= 2
  {
    if j < |a| - 1 {
      OnlyOne(a[..|a| - 1], i, j, job);
    } else {
      OpenIsCounted(a[..|a| - 1], i, job);
    }
  }

  lemma {:induction false} SomeOpen(a: seq<Attempt>, job: nat) returns (i: nat)
    requires OpenOf(a, job) >= 1
    ensures i < |a| && a[i].job == job && a[i].outcome == Open
  {
    var last := a[|a| - 1];
    if last.job == job && last.outcome == Open {
      i := |a| - 1;
    } else {
      i := SomeOpen(a[..|a| - 1], job);
    }
  }

  // ---------------------------------------------------------------------------------------
  // Attempt numbers
  // ---------------------------------------------------------------------------------------

  /** Every record is numbered by the claims its job had been through, itself included. */
  ghost predicate Numbered(attempts: seq<Attempt>) {
    forall i :: 0 <= i < |attempts| ==> attempts[i].number == ClaimsOf(attempts[..i + 1], attempts[i].job)
  }

  lemma NumberedPrefix(attempts: seq<Attempt>)
    requires Numbered(attempts) && attempts != []
    ensures Numbered(attempts[..|attempts| - 1])
    ensures attempts[|attempts| - 1].number == ClaimsOf(attempts, attempts[|attempts| - 1].job)
  {
    var front := attempts[..|attempts| - 1];
    forall i | 0 <= i < |front| ensures front[i].number == ClaimsOf(front[..i + 1], front[i].job) {
      assert front[..i + 1] == attempts[..i + 1];
    }
    assert attempts[..|attempts| - 1 + 1] == attempts;
  }

  lemma {:induction false} LatestCountsClaims(attempts: seq<Attempt>, job: nat)
    requires Numbered(attempts)
    ensures Latest(attempts, job) == ClaimsOf(attempts, job)
  {
    if attempts != [] {
      NumberedPrefix(attempts);
      LatestCountsClaims(attempts[..|attempts| - 1], job);
    }
  }

  /** The numbers of a job's records are exactly 1 to the number of its claims, each once. */
  lemma {:induction false} NumbersHaveNoGaps(attempts: seq<Attempt>, job: nat, number: nat) returns (i: nat)
    requires Numbered(attempts) && 1 <= number <= ClaimsOf(attempts, job)
    ensures i < |attempts| && attempts[i].job == job && attempts[i].number == number
    ensures forall k :: 0 <= k < |attempts| && attempts[k].job == job ==>
              1 <= attempts[k].number <= ClaimsOf(attempts, job) && (attempts[k].number == number ==> k == i)
  {
    NumberedPrefix(attempts);
    var front, last := attempts[..|attempts| - 1], attempts[|attempts| - 1];
    if last.job == job && number == ClaimsOf(attempts, job) {
      i := |attempts| - 1;
      NumbersAreBounded(front, job);
    } else {
      i := NumbersHaveNoGaps(front, job, number);
    }
  }

  lemma {:induction false} NumbersAreBounded(attempts: seq<Attempt>, job: nat)
    requires Numbered(attempts)
    ensures forall k :: 0 <= k < |attempts| && attempts[k].job == job ==> 1 <= attempts[k].number <= ClaimsOf(attempts, job)
  {
    if attempts != [] {
      NumberedPrefix(attempts);
      NumbersAreBounded(attempts[..|attempts| - 1], job);
    }
  }

  // ---------------------------------------------------------------------------------------
  // The invariant
  // ---------------------------------------------------------------------------------------

  /** A waiting job has an attempt left; a running one has spent one. */
  ghost predicate Budgeted(j: Job) {
    && Checked(j)
    && (j.status == Ready ==> j.attempts < j.maxAttempts)
    && (j.status == Running ==> 1 <= j.attempts)
  }

  /** A running job has exactly one open record, any other has none. */
  ghost predicate Accounted(q: Rows) {
    && (forall i :: 0 <= i < |q.attempts| ==> q.attempts[i].job < |q.jobs|)
    && (forall id: nat :: id < |q.jobs| ==> OpenOf(q.attempts, id) == if q.jobs[id].status == Running then 1 else 0)
  }

  /** What a worker was handed still describes the row for as long as its claim is open. */
  ghost predicate Current(q: Rows, h: Handed)
    requires h.id < |q.jobs|
  {
    var j := q.jobs[h.id];
    && j.claim.Some? && j.claim.value.worker == h.worker
    && j.attempts == h.attempts && j.maxAttempts == h.maxAttempts && j.expiresAt == h.expiresAt
  }

  ghost predicate Tracked(w: World) {
    && |w.handed| == |w.queue.attempts|
    && forall i :: 0 <= i < |w.handed| ==>
         && w.handed[i].attemptId == i
         && w.handed[i].id == w.queue.attempts[i].job < |w.queue.jobs|
         && (w.queue.attempts[i].outcome == Open ==> Current(w.queue, w.handed[i]))
  }

  ghost predicate Sound(q: Rows) {
    && (forall i :: 0 <= i < |q.jobs| ==> Budgeted(q.jobs[i]))
    && OneRunning(q.jobs)
    && OnePending(q.jobs)
    && Numbered(q.attempts)
    && Accounted(q)
  }

  ghost predicate Inv(w: World) {
    Sound(w.queue) && Tracked(w)
  }

  const EMPTY := World(Rows([], []), [])

  lemma EmptyInv()
    ensures Inv(EMPTY)
  {
  }

  predicate IsOpen(w: World, a: nat) {
    a < |w.handed| && a < |w.queue.attempts| && w.queue.attempts[a].outcome == Open
  }

  /** A claim is settled only while it is still open, and only a job that is not running is
      withdrawn from outside. */
  predicate Allowed(w: World, op: Op) {
    match op
    case Succeed(a) => IsOpen(w, a)
    case Supersede(a) => IsOpen(w, a)
    case Fail(a, _, _, _, _) => IsOpen(w, a)
    case Release(a) => IsOpen(w, a)
    case Withdraw(id) => id < |w.queue.jobs| && w.queue.jobs[id].status != Running
    case _ => true
  }

  /** A claim that is settled was handed out at some time. */
  predicate Named(w: World, op: Op) {
    match op
    case Succeed(a) => a < |w.handed|
    case Supersede(a) => a < |w.handed|
    case Fail(a, _, _, _, _) => a < |w.handed|
    case Release(a) => a < |w.handed|
    case _ => true
  }

  function StepOf(w: World, op: Op): Transition
    requires Named(w, op)
  {
    var q := w.queue;
    match op
    case Enqueue(input) => EnqueueStep(q, input)
    case Claim(options, view) => ClaimStep(q, options, view)
    case Heartbeat(id, worker, now, leaseMs) => HeartbeatStep(q, id, worker, now, leaseMs)
    case Succeed(a) => SucceedStep(q, w.handed[a].id, a)
    case Supersede(a) => SupersedeStep(q, w.handed[a].id, Some(a))
    case Withdraw(id) => SupersedeStep(q, id, None)
    case Fail(a, retryable, retryAfterMs, now, jitter) => FailStep(q, w.handed[a], retryable, retryAfterMs, now, jitter)
    case Reclaim(now, locked) => ReclaimStep(q, now, locked)
    case Expire(now) => ExpireStep(q, now)
    case Release(a) => ReleaseStep(q, w.handed[a].id, a, w.handed[a].worker)
    case Replay(id, now, windowMs) => ReplayStep(q, id, now, windowMs)
  }

  function Next(w: World, op: Op): World
    requires Named(w, op)
  {
    var t := StepOf(w, op);
    World(t.queue, if t.reply.Claimed? then w.handed + [t.reply.job] else w.handed)
  }

  // ---------------------------------------------------------------------------------------
  // What a change of one row keeps
  // ---------------------------------------------------------------------------------------

  /** Replacing a row by one that is not running, or by a running one with the same key, breaks no
      serialization key. */
  lemma RunningKept(jobs: seq<Job>, id: nat, j: Job)
    requires OneRunning(jobs) && id < |jobs|
    requires j.status == Running ==> jobs[id].status == Running && j.serializationKey == jobs[id].serializationKey
    ensures OneRunning(jobs[id := j])
  {
    var after := jobs[id := j];
    forall a, b | 0 <= a < b < |after| ensures !Contest(after[a], after[b]) {
      assert !Contest(jobs[a], jobs[b]);
    }
  }

  lemma PendingKept(jobs: seq<Job>, id: nat, j: Job)
    requires OnePending(jobs) && id < |jobs| && j.status != Ready
    ensures OnePending(jobs[id := j])
  {
    var after := jobs[id := j];
    forall a, b | 0 <= a < b < |after| ensures !Twins(after[a], after[b]) {
      assert !Twins(jobs[a], jobs[b]);
    }
  }

  /** Ending the one open claim of a running job. */
  lemma ClosingKeeps(q: Rows, id: nat, j: Job, a: nat, outcome: Outcome)
    requires Sound(q) && id < |q.jobs| && a < |q.attempts| && q.attempts[a].job == id && q.attempts[a].outcome == Open
    requires j.status != Running && Budgeted(j) && outcome != Open && OnePending(q.jobs[id := j])
    ensures q.jobs[id].status == Running
    ensures Sound(Rows(q.jobs[id := j], Close(q.attempts, a, outcome)))
  {
    var q' := Rows(q.jobs[id := j], Close(q.attempts, a, outcome));
    OpenIsCounted(q.attempts, a, id);
    RunningKept(q.jobs, id, j);
    NumberedKept(q.attempts, q'.attempts);
    forall k: nat | k < |q'.jobs| ensures OpenOf(q'.attempts, k) == if q'.jobs[k].status == Running then 1 else 0 {
      if k != id {
        OpenUntouched(q.attempts, q'.attempts, k);
      } else {
        ClosedAll(q, id, a, q'.attempts);
      }
    }
  }

  lemma ClosedAll(q: Rows, id: nat, a: nat, after: seq<Attempt>)
    requires OpenOf(q.attempts, id) == 1 && a < |q.attempts| && q.attempts[a].job == id && q.attempts[a].outcome == Open
    requires SameClaims(q.attempts, after) && after[a].outcome != Open
    requires forall i :: 0 <= i < |after| && i != a ==> after[i] == q.attempts[i]
    ensures OpenOf(after, id) == 0
  {
    forall i | 0 <= i < |after| && after[i].job == id ensures after[i].outcome != Open {
      if i != a && q.attempts[i].outcome == Open {
        if i < a { OnlyOne(q.attempts, i, a, id); } else { OnlyOne(q.attempts, a, i, id); }
      }
    }
    NoneOpen(after, id);
  }

  lemma NumberedKept(before: seq<Attempt>, after: seq<Attempt>)
    requires Numbered(before) && SameClaims(before, after)
    ensures Numbered(after)
  {
    forall i | 0 <= i < |after| ensures after[i].number == ClaimsOf(after[..i + 1], after[i].job) {
      ClaimsDependOnJobs(before[..i + 1], after[..i + 1], after[i].job);
    }
  }

  /** Changing a job that is not running into another that is not. */
  lemma IdleKeeps(q: Rows, id: nat, j: Job)
    requires Sound(q) && id < |q.jobs| && q.jobs[id].status != Running && j.status != Running
    requires Budgeted(j) && OnePending(q.jobs[id := j])
    ensures Sound(q.(jobs := q.jobs[id := j]))
  {
    RunningKept(q.jobs, id, j);
  }

  // ---------------------------------------------------------------------------------------
  // Each operation
  // ---------------------------------------------------------------------------------------

  lemma EnqueueKeeps(q: Rows, input: Input)
    requires Sound(q)
    ensures Sound(EnqueueStep(q, input).queue)
  {
    var t := EnqueueStep(q, input);
    if t.reply.Pending? && !t.reply.deduplicated {
      var jobs := q.jobs + [Fresh(input)];
      forall a, b | 0 <= a < b < |jobs| ensures !Twins(jobs[a], jobs[b]) && !Contest(jobs[a], jobs[b]) {
        if b < |q.jobs| {
          assert !Twins(q.jobs[a], q.jobs[b]) && !Contest(q.jobs[a], q.jobs[b]);
        }
      }
      NoneOpen(q.attempts, |q.jobs|);
    }
  }

  lemma ClaimKeeps(q: Rows, o: Options, v: View)
    requires Sound(q)
    ensures Sound(ClaimStep(q, o, v).queue)
  {
    var t := ClaimStep(q, o, v);
    if t.reply.Claimed? {
      var id := t.reply.job.id;
      PendingKept(q.jobs, id, t.queue.jobs[id]);
      OpenedAccounted(q, id, t.queue);
      OpenedNumbered(q, id, t.queue);
    }
  }

  lemma OpenedAccounted(q: Rows, id: nat, q': Rows)
    requires Accounted(q) && id < |q.jobs| && q.jobs[id].status != Running
    requires |q'.jobs| == |q.jobs| && q'.jobs[id].status == Running
    requires forall k :: 0 <= k < |q.jobs| && k != id ==> q'.jobs[k] == q.jobs[k]
    requires q'.attempts == q.attempts + [Attempt(id, Latest(q.attempts, id) + 1, Open)]
    ensures Accounted(q')
  {
    forall k: nat | k < |q'.jobs| ensures OpenOf(q'.attempts, k) == if q'.jobs[k].status == Running then 1 else 0 {
      CountsAppend(q.attempts, Attempt(id, Latest(q.attempts, id) + 1, Open), k);
    }
  }

  lemma OpenedNumbered(q: Rows, id: nat, q': Rows)
    requires Numbered(q.attempts)
    requires q'.attempts == q.attempts + [Attempt(id, Latest(q.attempts, id) + 1, Open)]
    ensures Numbered(q'.attempts)
  {
    LatestCountsClaims(q.attempts, id);
    CountsAppend(q.attempts, Attempt(id, Latest(q.attempts, id) + 1, Open), id);
    forall i | 0 <= i < |q'.attempts| ensures q'.attempts[i].number == ClaimsOf(q'.attempts[..i + 1], q'.attempts[i].job) {
      if i < |q.attempts| {
        assert q'.attempts[..i + 1] == q.attempts[..i + 1];
      } else {
        assert q'.attempts[..i + 1] == q'.attempts;
      }
    }
  }

  lemma HeartbeatKeeps(q: Rows, id: nat, worker: nat, now: int, leaseMs: int)
    requires Sound(q)
    ensures Sound(HeartbeatStep(q, id, worker, now, leaseMs).queue)
  {
    var t := HeartbeatStep(q, id, worker, now, leaseMs);
    if t.reply == Told(true) {
      RunningKept(q.jobs, id, t.queue.jobs[id]);
      PendingKept(q.jobs, id, t.queue.jobs[id]);
    }
  }

  lemma ReclaimKeepsRunning(q: Rows, now: int, locked: set<nat>)
    requires Sound(q)
    ensures OneRunning(ReopenLost(q.jobs, now, locked))
    ensures forall i :: 0 <= i < |q.jobs| ==> Budgeted(ReopenLost(q.jobs, now, locked)[i])
  {
    var jobs := ReopenLost(q.jobs, now, locked);
    forall a, b | 0 <= a < b < |jobs| ensures !Contest(jobs[a], jobs[b]) {
      assert !Contest(q.jobs[a], q.jobs[b]);
    }
    assert forall i :: 0 <= i < |q.jobs| ==> Budgeted(q.jobs[i]);
  }

  lemma ReclaimAccounted(q: Rows, now: int, locked: set<nat>)
    requires Accounted(q)
    ensures Accounted(Rows(ReopenLost(q.jobs, now, locked), CloseLost(q, now, locked)))
  {
    var jobs, attempts := ReopenLost(q.jobs, now, locked), CloseLost(q, now, locked);
    forall k: nat | k < |q.jobs| ensures OpenOf(attempts, k) == if jobs[k].status == Running then 1 else 0 {
      if Lost(q.jobs[k], now) && k !in locked {
        NoneOpen(attempts, k);
      } else {
        OpenUntouched(q.attempts, attempts, k);
      }
    }
  }

  lemma ReclaimNumbered(q: Rows, now: int, locked: set<nat>)
    requires Numbered(q.attempts)
    ensures Numbered(CloseLost(q, now, locked))
  {
    NumberedKept(q.attempts, CloseLost(q, now, locked));
  }

  lemma ReclaimKeeps(q: Rows, now: int, locked: set<nat>)
    requires Sound(q)
    ensures Sound(ReclaimStep(q, now, locked).queue)
  {
    if OnePending(ReopenLost(q.jobs, now, locked)) {
      ReclaimKeepsRunning(q, now, locked);
      ReclaimAccounted(q, now, locked);
      ReclaimNumbered(q, now, locked);
    }
  }

  lemma ExpireKeeps(q: Rows, now: int)
    requires Sound(q)
    ensures Sound(ExpireStep(q, now).queue)
  {
    var jobs := Queue.Expire(q.jobs, now);
    forall a, b | 0 <= a < b < |jobs| ensures !Contest(jobs[a], jobs[b]) && !Twins(jobs[a], jobs[b]) {
      assert !Contest(q.jobs[a], q.jobs[b]) && !Twins(q.jobs[a], q.jobs[b]);
    }
  }

  /** The operations that do not settle a claim. */
  lemma OtherStepsKeep(w: World, op: Op)
    requires Inv(w) && Allowed(w, op)
    requires !op.Succeed? && !op.Supersede? && !op.Fail? && !op.Release?
    ensures Sound(StepOf(w, op).queue)
  {
    var q := w.queue;
    match op
    case Enqueue(input) => EnqueueKeeps(q, input);
    case Claim(options, view) => ClaimKeeps(q, options, view);
    case Heartbeat(id, worker, now, leaseMs) => HeartbeatKeeps(q, id, worker, now, leaseMs);
    case Withdraw(id) =>
      if q.jobs[id].status == Ready {
        PendingKept(q.jobs, id, Ended(q.jobs[id], Cancelled));
        IdleKeeps(q, id, Ended(q.jobs[id], Cancelled));
      }
    case Reclaim(now, locked) => ReclaimKeeps(q, now, locked);
    case Expire(now) => ExpireKeeps(q, now);
    case Replay(id, now, windowMs) =>
      if StepOf(w, op).reply == Told(true) {
        IdleKeeps(q, id, Replayed(q.jobs[id], now, windowMs));
      }
  }

  /** The open claim named by an operation belongs to a running job it still describes. */
  lemma OpenIsRunning(w: World, a: nat)
    requires Inv(w) && a < |w.queue.attempts| && w.queue.attempts[a].outcome == Open
    ensures w.handed[a].id == w.queue.attempts[a].job < |w.queue.jobs|
    ensures w.queue.jobs[w.handed[a].id].status == Running && Current(w.queue, w.handed[a])
    ensures Budgeted(w.queue.jobs[w.handed[a].id])
  {
    OpenIsCounted(w.queue.attempts, a, w.queue.attempts[a].job);
  }

  lemma EndingKeeps(w: World, a: nat)
    requires Inv(w) && a < |w.queue.attempts| && w.queue.attempts[a].outcome == Open
    ensures Sound(SucceedStep(w.queue, w.handed[a].id, a).queue)
    ensures Sound(SupersedeStep(w.queue, w.handed[a].id, Some(a)).queue)
  {
    OpenIsRunning(w, a);
    var id := w.handed[a].id;
    PendingKept(w.queue.jobs, id, Ended(w.queue.jobs[id], Succeeded));
    PendingKept(w.queue.jobs, id, Ended(w.queue.jobs[id], Cancelled));
    ClosingKeeps(w.queue, id, Ended(w.queue.jobs[id], Succeeded), a, Done);
    ClosingKeeps(w.queue, id, Ended(w.queue.jobs[id], Cancelled), a, Superseded);
  }

  lemma FailKeeps(w: World, a: nat, retryable: bool, retryAfterMs: Option<int>, now: int, jitter: nat)
    requires Inv(w) && a < |w.queue.attempts| && w.queue.attempts[a].outcome == Open
    ensures Sound(FailStep(w.queue, w.handed[a], retryable, retryAfterMs, now, jitter).queue)
  {
    OpenIsRunning(w, a);
    var h := w.handed[a];
    var d := Decide(h, retryable, retryAfterMs, now, jitter);
    var row := Settled(w.queue.jobs[h.id], d);
    if OnePending(w.queue.jobs[h.id := row]) {
      ClosingKeeps(w.queue, h.id, row, a, Failed);
    }
  }

  lemma ReleaseKeeps(w: World, a: nat)
    requires Inv(w) && a < |w.queue.attempts| && w.queue.attempts[a].outcome == Open
    ensures Sound(ReleaseStep(w.queue, w.handed[a].id, a, w.handed[a].worker).queue)
  {
    OpenIsRunning(w, a);
    var id := w.handed[a].id;
    var row := GivenBack(w.queue.jobs[id]);
    if OnePending(w.queue.jobs[id := row]) {
      ClosingKeeps(w.queue, id, row, a, Reclaimed);
    }
  }

  lemma StepKeepsSound(w: World, op: Op)
    requires Inv(w) && Allowed(w, op)
    ensures Sound(StepOf(w, op).queue)
  {
    match op
    case Succeed(a) => EndingKeeps(w, a);
    case Supersede(a) => EndingKeeps(w, a);
    case Fail(a, retryable, retryAfterMs, now, jitter) => FailKeeps(w, a, retryable, retryAfterMs, now, jitter);
    case Release(a) => ReleaseKeeps(w, a);
    case _ => OtherStepsKeep(w, op);
  }

  /** A row that is running afterwards was running before, for the same worker, with the same
      counters and deadline: nothing but a claim or a settlement touches those. */
  ghost predicate ClaimsUntouched(q: Rows, q': Rows) {
    && |q.jobs| <= |q'.jobs|
    && SameClaims(q.attempts, q'.attempts)
    && (forall i :: 0 <= i < |q.attempts| && q'.attempts[i].outcome == Open ==> q.attempts[i].outcome == Open)
    && (forall id: nat :: id < |q.jobs| && q'.jobs[id].status == Running ==> StillHeld(q.jobs[id], q'.jobs[id]))
  }

  ghost predicate StillHeld(j: Job, j': Job) {
    && j.claim.Some? && j'.claim.Some? && j'.claim.value.worker == j.claim.value.worker
    && j'.attempts == j.attempts && j'.maxAttempts == j.maxAttempts && j'.expiresAt == j.expiresAt
  }

  lemma TrackedKept(w: World, q': Rows)
    requires Inv(w) && Sound(q') && ClaimsUntouched(w.queue, q')
    ensures Tracked(World(q', w.handed))
  {
    forall i | 0 <= i < |w.handed| && q'.attempts[i].outcome == Open ensures Current(q', w.handed[i]) {
      OpenIsCounted(q'.attempts, i, q'.attempts[i].job);
      assert q'.jobs[w.handed[i].id].status == Running;
    }
  }

  lemma SettlementUntouched(w: World, id: nat, j: Job, a: nat, outcome: Outcome)
    requires Inv(w) && id < |w.queue.jobs| && j.status != Running && outcome != Open
    ensures ClaimsUntouched(w.queue, Rows(w.queue.jobs[id := j], Close(w.queue.attempts, a, outcome)))
  {
  }

  lemma SettlementsUntouched(w: World, op: Op)
    requires Inv(w) && Allowed(w, op) && (op.Succeed? || op.Supersede? || op.Fail? || op.Release?)
    ensures ClaimsUntouched(w.queue, StepOf(w, op).queue)
  {
    OpenIsRunning(w, op.attempt);
    var id := w.handed[op.attempt].id;
    var j := w.queue.jobs[id];
    match op
    case Succeed(a) => SettlementUntouched(w, id, Ended(j, Succeeded), a, Done);
    case Supersede(a) => SettlementUntouched(w, id, Ended(j, Cancelled), a, Superseded);
    case Fail(a, retryable, retryAfterMs, now, jitter) =>
      SettlementUntouched(w, id, Settled(j, Decide(w.handed[a], retryable, retryAfterMs, now, jitter)), a, Failed);
    case Release(a) => SettlementUntouched(w, id, GivenBack(j), a, Reclaimed);
  }

  lemma EnqueueUntouched(q: Rows, input: Input)
    requires Sound(q)
    ensures ClaimsUntouched(q, EnqueueStep(q, input).queue)
  {
    assert forall id: nat :: id < |q.jobs| ==> Budgeted(q.jobs[id]);
  }

  lemma RowUntouched(q: Rows, id: nat, j: Job)
    requires Sound(q) && id < |q.jobs| && (j.status == Running ==> StillHeld(q.jobs[id], j))
    ensures ClaimsUntouched(q, q.(jobs := q.jobs[id := j]))
  {
    assert forall k: nat :: k < |q.jobs| ==> Budgeted(q.jobs[k]);
  }

  lemma ReclaimUntouched(q: Rows, now: int, locked: set<nat>)
    requires Sound(q)
    ensures ClaimsUntouched(q, Rows(ReopenLost(q.jobs, now, locked), CloseLost(q, now, locked)))
  {
    var jobs := ReopenLost(q.jobs, now, locked);
    forall id: nat | id < |jobs| && jobs[id].status == Running ensures StillHeld(q.jobs[id], jobs[id]) {
      assert Budgeted(q.jobs[id]);
    }
  }

  lemma ExpireUntouched(q: Rows, now: int)
    requires Sound(q)
    ensures ClaimsUntouched(q, ExpireStep(q, now).queue)
  {
    assert forall k: nat :: k < |q.jobs| ==> Budgeted(q.jobs[k]);
  }

  lemma NothingUntouched(q: Rows)
    requires Sound(q)
    ensures ClaimsUntouched(q, q)
  {
    assert forall k: nat :: k < |q.jobs| ==> Budgeted(q.jobs[k]);
  }

  lemma OthersUntouched(w: World, op: Op)
    requires Inv(w) && Allowed(w, op) && !StepOf(w, op).reply.Claimed?
    requires !(op.Succeed? || op.Supersede? || op.Fail? || op.Release?)
    ensures ClaimsUntouched(w.queue, StepOf(w, op).queue)
  {
    var q := w.queue;
    NothingUntouched(q);
    match op
    case Enqueue(input) => EnqueueUntouched(q, input);
    case Claim(options, view) =>
    case Heartbeat(id, worker, now, leaseMs) =>
      if StepOf(w, op).reply == Told(true) {
        RowUntouched(q, id, q.jobs[id].(claim := Some(Queue.Claim(worker, now + leaseMs))));
      }
    case Withdraw(id) => RowUntouched(q, id, Ended(q.jobs[id], Cancelled));
    case Reclaim(now, locked) => ReclaimUntouched(q, now, locked);
    case Expire(now) => ExpireUntouched(q, now);
    case Replay(id, now, windowMs) =>
      if id < |q.jobs| { RowUntouched(q, id, Replayed(q.jobs[id], now, windowMs)); }
  }

  lemma ClaimTracked(w: World, o: Options, v: View)
    requires Inv(w) && ClaimStep(w.queue, o, v).reply.Claimed?
    ensures Tracked(Next(w, Op.Claim(o, v)))
  {
    var w' := Next(w, Op.Claim(o, v));
    forall i | 0 <= i < |w.handed| && w'.queue.attempts[i].outcome == Open ensures Current(w'.queue, w.handed[i]) {
      OpenIsRunning(w, i);
    }
  }

  /** Every allowed operation keeps the invariant. */
  lemma NextKeeps(w: World, op: Op)
    requires Inv(w) && Allowed(w, op)
    ensures Inv(Next(w, op))
  {
    StepKeepsSound(w, op);
    if StepOf(w, op).reply.Claimed? {
      ClaimTracked(w, op.options, op.view);
    } else {
      if op.Succeed? || op.Supersede? || op.Fail? || op.Release? {
        SettlementsUntouched(w, op);
      } else {
        OthersUntouched(w, op);
      }
      TrackedKept(w, StepOf(w, op).queue);
    }
  }

  // ---------------------------------------------------------------------------------------
  // Runs
  // ---------------------------------------------------------------------------------------

  ghost predicate IsRun(w: World, ops: seq<Op>)
    decreases ops
  {
    ops == [] || (Allowed(w, ops[0]) && IsRun(Next(w, ops[0]), ops[1..]))
  }

  ghost function After(w: World, ops: seq<Op>): (r: World)
    requires IsRun(w, ops)
    decreases ops
  {
    if ops == [] then w else After(Next(w, ops[0]), ops[1..])
  }

  lemma {:induction false} RunKeeps(w: World, ops: seq<Op>)
    requires Inv(w) && IsRun(w, ops)
    ensures Inv(After(w, ops))
    decreases ops
  {
    if ops != [] {
      NextKeeps(w, ops[0]);
      RunKeeps(Next(w, ops[0]), ops[1..]);
    }
  }

  /** After every run: one running job per serialization key, one ready job per dedupe key, budgets
      respected, attempts numbered without gaps, and exactly one open record per running job. */
  lemma QueueInvariant(ops: seq<Op>)
    requires IsRun(EMPTY, ops)
    ensures var q := After(EMPTY, ops).queue;
            && OneRunning(q.jobs) && OnePending(q.jobs)
            && (forall i :: 0 <= i < |q.jobs| ==> Budgeted(q.jobs[i]))
            && Numbered(q.attempts) && Accounted(q)
  {
    EmptyInv();
    RunKeeps(EMPTY, ops);
  }

  // ---------------------------------------------------------------------------------------
  // How often a job can be claimed
  // ---------------------------------------------------------------------------------------

  lemma {:induction false} UnknownNeverClaimed(attempts: seq<Attempt>, job: nat)
    requires forall i :: 0 <= i < |attempts| ==> attempts[i].job != job
    ensures ClaimsOf(attempts, job) == 0
  {
    if attempts != [] {
      UnknownNeverClaimed(attempts[..|attempts| - 1], job);
    }
  }

  /** Claims beyond those the job's own counter remembers. */
  ghost function Forgotten(q: Rows, job: nat): int {
    ClaimsOf(q.attempts, job) - if job < |q.jobs| then q.jobs[job].attempts else 0
  }

  function Releases(w: World, op: Op, job: nat): nat
    requires Allowed(w, op)
  {
    if op.Release? && w.handed[op.attempt].id == job then 1 else 0
  }

  function Replays(op: Op, job: nat): nat {
    if op.Replay? && op.id == job then 1 else 0
  }

  function Granted(w: World, op: Op, job: nat, most: int): int
    requires Allowed(w, op)
  {
    Releases(w, op, job) + if Replays(op, job) == 1 then most else 0
  }

  /** Only a release or a replay lowers a job's counter. */
  ghost predicate Lowered(w: World, op: Op, job: nat, j': Job)
    requires Allowed(w, op) && job < |w.queue.jobs|
  {
    var j := w.queue.jobs[job];
    j'.maxAttempts == j.maxAttempts && j'.attempts >= j.attempts - Granted(w, op, job, j.maxAttempts)
  }

  lemma SettlementLowers(w: World, op: Op, job: nat)
    requires Inv(w) && Allowed(w, op) && job < |w.queue.jobs|
    requires op.Succeed? || op.Supersede? || op.Fail? || op.Release?
    ensures Lowered(w, op, job, StepOf(w, op).queue.jobs[job])
  {
    OpenIsRunning(w, op.attempt);
  }

  lemma OtherLowers(w: World, op: Op, job: nat)
    requires Inv(w) && Allowed(w, op) && job < |w.queue.jobs| && !StepOf(w, op).reply.Claimed?
    requires !(op.Succeed? || op.Supersede? || op.Fail? || op.Release?)
    ensures Lowered(w, op, job, StepOf(w, op).queue.jobs[job])
  {
    assert Budgeted(w.queue.jobs[job]);
  }

  ghost predicate Forgets(w: World, op: Op, job: nat)
    requires Allowed(w, op) && job < |StepOf(w, op).queue.jobs|
  {
    var q, q' := w.queue, StepOf(w, op).queue;
    && (job < |q.jobs| ==> q'.jobs[job].maxAttempts == q.jobs[job].maxAttempts)
    && Forgotten(q', job) <= Forgotten(q, job) + Granted(w, op, job, q'.jobs[job].maxAttempts)
  }

  lemma ClaimForgets(w: World, o: Options, v: View, job: nat)
    requires Inv(w) && ClaimStep(w.queue, o, v).reply.Claimed? && job < |w.queue.jobs|
    ensures Forgets(w, Op.Claim(o, v), job)
  {
    var q, q' := w.queue, ClaimStep(w.queue, o, v).queue;
    CountsAppend(q.attempts, q'.attempts[|q.attempts|], job);
  }

  lemma NewForgets(w: World, input: Input)
    requires Inv(w) && |w.queue.jobs| < |EnqueueStep(w.queue, input).queue.jobs|
    ensures Forgets(w, Enqueue(input), |w.queue.jobs|)
  {
    UnknownNeverClaimed(w.queue.attempts, |w.queue.jobs|);
  }

  lemma StepForgets(w: World, op: Op, job: nat)
    requires Inv(w) && Allowed(w, op) && job < |StepOf(w, op).queue.jobs|
    ensures Forgets(w, op, job)
  {
    if StepOf(w, op).reply.Claimed? {
      ClaimForgets(w, op.options, op.view, job);
    } else if job >= |w.queue.jobs| {
      NewForgets(w, op.input);
    } else {
      if op.Succeed? || op.Supersede? || op.Fail? || op.Release? {
        SettlementsUntouched(w, op);
        SettlementLowers(w, op, job);
      } else {
        OthersUntouched(w, op);
        OtherLowers(w, op, job);
      }
      ClaimsDependOnJobs(w.queue.attempts, StepOf(w, op).queue.attempts, job);
    }
  }

  ghost function ReleasesIn(w: World, ops: seq<Op>, job: nat): nat
    requires IsRun(w, ops)
    decreases ops
  {
    if ops == [] then 0 else Releases(w, ops[0], job) + ReleasesIn(Next(w, ops[0]), ops[1..], job)
  }

  function ReplaysIn(ops: seq<Op>, job: nat): nat {
    if ops == [] then 0 else Replays(ops[0], job) + ReplaysIn(ops[1..], job)
  }

  /** What a run's releases and replays let the counter forget. */
  ghost function Allowance(w: World, ops: seq<Op>, job: nat, most: int): int
    requires IsRun(w, ops)
    decreases ops
  {
    if ops == [] then 0 else Granted(w, ops[0], job, most) + Allowance(Next(w, ops[0]), ops[1..], job, most)
  }

  lemma {:induction false} AllowanceIs(w: World, ops: seq<Op>, job: nat, most: int)
    requires IsRun(w, ops)
    ensures Allowance(w, ops, job, most) == ReleasesIn(w, ops, job) + ReplaysIn(ops, job) * most
    decreases ops
  {
    if ops != [] {
      AllowanceIs(Next(w, ops[0]), ops[1..], job, most);
      OneMore(Replays(ops[0], job), ReplaysIn(ops[1..], job), most);
    }
  }

  lemma OneMore(first: nat, rest: nat, most: int)
    requires first <= 1
    ensures (first + rest) * most == (if first == 1 then most else 0) + rest * most
  {
  }

  /** A job keeps the maximum it was enqueued with. */
  lemma {:induction false} MaximumIsFixed(w: World, ops: seq<Op>, job: nat)
    requires Inv(w) && IsRun(w, ops) && job < |w.queue.jobs|
    ensures var q' := After(w, ops).queue;
            job < |q'.jobs| && q'.jobs[job].maxAttempts == w.queue.jobs[job].maxAttempts >= 1
    decreases ops
  {
    if ops == [] {
      assert Budgeted(w.queue.jobs[job]);
    } else {
      StepForgets(w, ops[0], job);
      NextKeeps(w, ops[0]);
      MaximumIsFixed(Next(w, ops[0]), ops[1..], job);
    }
  }

  lemma NotYet(w: World, op: Op, job: nat)
    requires Inv(w) && Allowed(w, op) && job >= |Next(w, op).queue.jobs|
    ensures job >= |w.queue.jobs| && Forgotten(w.queue, job) == 0 == Forgotten(Next(w, op).queue, job)
  {
    NextKeeps(w, op);
    UnknownNeverClaimed(w.queue.attempts, job);
    UnknownNeverClaimed(Next(w, op).queue.attempts, job);
  }

  /** One step from `w` to `next`, seen from the end of the run that goes on with `rest`. */
  lemma StepAllowance(w: World, op: Op, next: World, rest: seq<Op>, job: nat, most: nat)
    requires Inv(w) && Allowed(w, op) && next == Next(w, op) && IsRun(next, rest)
    requires job < |After(next, rest).queue.jobs| && After(next, rest).queue.jobs[job].maxAttempts == most
    ensures Forgotten(next.queue, job) <= Forgotten(w.queue, job) + Granted(w, op, job, most)
  {
    NextKeeps(w, op);
    if job < |next.queue.jobs| {
      MaximumIsFixed(next, rest, job);
      StepForgets(w, op, job);
    } else {
      NotYet(w, op, job);
    }
  }

  lemma {:induction false} RunForgets(w: World, ops: seq<Op>, job: nat, most: nat)
    requires Inv(w) && IsRun(w, ops)
    requires job < |After(w, ops).queue.jobs| && After(w, ops).queue.jobs[job].maxAttempts == most
    ensures Forgotten(After(w, ops).queue, job) <= Forgotten(w.queue, job) + Allowance(w, ops, job, most)
    decreases ops
  {
    if ops != [] {
      NextKeeps(w, ops[0]);
      RunForgets(Next(w, ops[0]), ops[1..], job, most);
      StepAllowance(w, ops[0], Next(w, ops[0]), ops[1..], job, most);
    }
  }

  /** After every run a job has been claimed at most its maximum for each time it was put in the
      queue by enqueue or replay, plus once for every claim handed back. */
  lemma ClaimsAreBounded(ops: seq<Op>, job: nat)
    requires IsRun(EMPTY, ops) && job < |After(EMPTY, ops).queue.jobs|
    ensures var q := After(EMPTY, ops).queue;
            ClaimsOf(q.attempts, job)
            <= q.jobs[job].maxAttempts + ReplaysIn(ops, job) * q.jobs[job].maxAttempts + ReleasesIn(EMPTY, ops, job)
  {
    EmptyInv();
    RunKeeps(EMPTY, ops);
    var q := After(EMPTY, ops).queue;
    assert Budgeted(q.jobs[job]);
    RunForgets(EMPTY, ops, job, q.jobs[job].maxAttempts);
    AllowanceIs(EMPTY, ops, job, q.jobs[job].maxAttempts);
    assert Forgotten(EMPTY.queue, job) == 0;
    assert Forgotten(q, job) == ClaimsOf(q.attempts, job) - q.jobs[job].attempts;
  }

  /** Without releases and replays, never more often than its maximum. */
  lemma NeverMoreThanItsMaximum(ops: seq<Op>, job: nat)
    requires IsRun(EMPTY, ops) && job < |After(EMPTY, ops).queue.jobs|
    requires ReplaysIn(ops, job) == 0 == ReleasesIn(EMPTY, ops, job)
    ensures ClaimsOf(After(EMPTY, ops).queue.attempts, job) <= After(EMPTY, ops).queue.jobs[job].maxAttempts
  {
    ClaimsAreBounded(ops, job);
  }
}
