/**
  The durable job queue (packages/jobs/src/queue.ts): job rows, their attempt records, and what each
  operation does to both.

  Every operation is a step on a value; class `JobTable.Table` performs them in place. A job's id is
  its position, so rows are in creation order. The two partial unique indexes of the table
  decide which updates the database refuses; a refused update changes nothing.
 */
module Queue {
  import opened Stock
  import opened Retry

  datatype Status = Ready | Running | Succeeded | Dead | Cancelled

  datatype Claim = Claim(worker: nat, leaseExpiresAt: int)

  datatype Job = Job(
    kind: nat,
    priority: int,
    serializationKey: Option<nat>,
    dedupeKey: Option<nat>,
    status: Status,
    attempts: nat,
    maxAttempts: int,
    runAt: int,
    expiresAt: int,
    claim: Option<Claim>)

  datatype Outcome = Open | Done | Failed | Superseded | Reclaimed

  /** One claim of one job; `Open` until the claim ends. */
  datatype Attempt = Attempt(job: nat, number: nat, outcome: Outcome)

  datatype Rows = Rows(jobs: seq<Job>, attempts: seq<Attempt>)

  /** What a worker is handed with a claim: the row as it was claimed, and its attempt record. */
  datatype Handed = Handed(
    id: nat, attemptId: nat, worker: nat, attempts: nat, maxAttempts: int, expiresAt: int)

  datatype Reply =
    | Pending(id: nat, deduplicated: bool)
    | Claimed(job: Handed)
    | NothingToDo
    | Decided(decision: Decision)
    | Told(yes: bool)
    | Counted(count: nat)
    | Refused(constraint: string)

  datatype Transition = Transition(queue: Rows, reply: Reply)

  const ONE_RUNNING := "background_jobs_one_running_per_key"
  const ONE_PENDING := "background_jobs_pending_dedupe"
  const POSITIVE_MAX := "background_jobs_max_attempts_positive"

  // ---------------------------------------------------------------------------------------
  // Constraints of the table
  // ---------------------------------------------------------------------------------------

  predicate Checked(j: Job) {
    && 0 <= j.attempts <= j.maxAttempts
    && j.maxAttempts >= 1
    && (j.status == Running <==> j.claim.Some?)
  }

  predicate SameKey(a: Option<nat>, b: Option<nat>) {
    a.Some? && a == b
  }

  predicate Contest(a: Job, b: Job) {
    a.status == Running && b.status == Running && SameKey(a.serializationKey, b.serializationKey)
  }

  predicate Twins(a: Job, b: Job) {
    a.status == Ready && b.status == Ready && SameKey(a.dedupeKey, b.dedupeKey)
  }

  /** The partial unique index on the serialization key of running jobs. */
  predicate OneRunning(jobs: seq<Job>) {
    forall i, j :: 0 <= i < j < |jobs| ==> !Contest(jobs[i], jobs[j])
  }

  /** The partial unique index on the dedupe key of ready jobs. */
  predicate OnePending(jobs: seq<Job>) {
    forall i, j :: 0 <= i < j < |jobs| ==> !Twins(jobs[i], jobs[j])
  }

  // ---------------------------------------------------------------------------------------
  // One row
  // ---------------------------------------------------------------------------------------

  /** The part of the claim's condition that looks at the row alone. */
  predicate Due(j: Job, now: int) {
    j.status == Ready && j.runAt <= now < j.expiresAt && j.attempts < j.maxAttempts
  }

  function Taken(j: Job, worker: nat, now: int, leaseMs: int): Job {
    j.(status := Running, attempts := j.attempts + 1, claim := Some(Claim(worker, now + leaseMs)))
  }

  /** A failed attempt's row, once the decision is taken. */
  function Settled(j: Job, d: Decision): Job {
    match d
    case Again(runAt, _) => j.(status := Ready, runAt := runAt, claim := None)
    case DeadLetter(_) => j.(status := Dead, claim := None)
  }

  function Ended(j: Job, status: Status): Job {
    j.(status := status, claim := None)
  }

  predicate Lost(j: Job, now: int) {
    j.status == Running && j.claim.Some? && j.claim.value.leaseExpiresAt < now
  }

  function Reopened(j: Job): Job {
    j.(status := if j.attempts >= j.maxAttempts then Dead else Ready, claim := None)
  }

  function GivenBack(j: Job): Job {
    j.(status := Ready, attempts := if j.attempts >= 1 then j.attempts - 1 else 0, claim := None)
  }

  function Replayed(j: Job, now: int, windowMs: int): Job {
    j.(status := Ready, attempts := 0, runAt := now, expiresAt := now + windowMs)
  }

  // ---------------------------------------------------------------------------------------
  // Attempt records
  // ---------------------------------------------------------------------------------------

  function Close(attempts: seq<Attempt>, id: nat, outcome: Outcome): (r: seq<Attempt>)
    ensures |r| == |attempts|
  {
    if id < |attempts| then attempts[id := attempts[id].(outcome := outcome)] else attempts
  }

  function Latest(attempts: seq<Attempt>, job: nat): nat {
    if attempts == [] then 0
    else
      var before := Latest(attempts[..|attempts| - 1], job);
      var last := attempts[|attempts| - 1];
      if last.job == job && last.number > before then last.number else before
  }

  // ---------------------------------------------------------------------------------------
  // Adding a job
  // ---------------------------------------------------------------------------------------

  datatype Input = Input(
    kind: nat,
    priority: int,
    serializationKey: Option<nat>,
    dedupeKey: Option<nat>,
    runAt: int,
    windowMs: int,
    maxAttempts: int)

  function Fresh(input: Input): Job {
    Job(input.kind, input.priority, input.serializationKey, input.dedupeKey, Ready, 0,
        input.maxAttempts, input.runAt, input.runAt + input.windowMs, None)
  }

  /** The first ready job carrying the key, if any. */
  function PendingWith(jobs: seq<Job>, key: Option<nat>): (r: Option<nat>)
    ensures r.Some? ==> r.value < |jobs| && jobs[r.value].status == Ready && SameKey(jobs[r.value].dedupeKey, key)
    ensures r.None? ==> forall j :: 0 <= j < |jobs| && jobs[j].status == Ready ==> !SameKey(jobs[j].dedupeKey, key)
  {
    if jobs == [] then None
    else
      var before := PendingWith(jobs[..|jobs| - 1], key);
      var last := jobs[|jobs| - 1];
      if before.Some? then before
      else if last.status == Ready && SameKey(last.dedupeKey, key) then Some(|jobs| - 1)
      else None
  }

  function EnqueueStep(q: Rows, input: Input): Transition {
    if input.maxAttempts < 1 then Transition(q, Refused(POSITIVE_MAX))
    else
      var pending := PendingWith(q.jobs, input.dedupeKey);
      if pending.Some? then Transition(q, Pending(pending.value, true))
      else Transition(q.(jobs := q.jobs + [Fresh(input)]), Pending(|q.jobs|, false))
  }

  // ---------------------------------------------------------------------------------------
  // Claiming
  // ---------------------------------------------------------------------------------------

  datatype Options = Options(worker: nat, leaseMs: int, kinds: seq<nat>, maxPriority: Option<int>)

  /** What one try of a claim sees: its time, the rows other transactions hold locked, and the
      running jobs whose transactions have not committed yet. */
  datatype View = View(now: int, locked: set<nat>, hidden: set<nat>)

  predicate Excluded(jobs: seq<Job>, key: Option<nat>, hidden: set<nat>) {
    exists r :: 0 <= r < |jobs| && jobs[r].status == Running && SameKey(jobs[r].serializationKey, key) && r !in hidden
  }

  predicate Claimable(jobs: seq<Job>, o: Options, v: View, c: nat)
    requires c < |jobs|
  {
    && c !in v.locked
    && Due(jobs[c], v.now)
    && (o.kinds == [] || jobs[c].kind in o.kinds)
    && (o.maxPriority.None? || jobs[c].priority <= o.maxPriority.value)
    && !Excluded(jobs, jobs[c].serializationKey, v.hidden)
  }

  /** Priority first, then the time it became due. */
  predicate Sooner(a: Job, b: Job) {
    a.priority < b.priority || (a.priority == b.priority && a.runAt < b.runAt)
  }

  function Best(jobs: seq<Job>, o: Options, v: View, n: nat): (r: Option<nat>)
    requires n <= |jobs|
    ensures r.Some? ==> r.value < n && Claimable(jobs, o, v, r.value)
  {
    if n == 0 then None
    else
      var before := Best(jobs, o, v, n - 1);
      if !Claimable(jobs, o, v, n - 1) then before
      else if before.None? || Sooner(jobs[n - 1], jobs[before.value]) then Some(n - 1)
      else before
  }

  /** Nothing claimable is more urgent than what a claim takes, older jobs go first among equals,
      and a claim comes back empty only when there is nothing claimable. */
  lemma {:induction false} BestIsMostUrgent(jobs: seq<Job>, o: Options, v: View, n: nat)
    requires n <= |jobs|
    ensures var r := Best(jobs, o, v, n);
            && (r.None? <==> forall c: nat :: c < n ==> !Claimable(jobs, o, v, c))
            && (r.Some? ==> forall c: nat :: c < n && Claimable(jobs, o, v, c) ==>
                  !Sooner(jobs[c], jobs[r.value]) && (c < r.value ==> Sooner(jobs[r.value], jobs[c])))
  {
    if n > 0 {
      BestIsMostUrgent(jobs, o, v, n - 1);
    }
  }

  function ClaimStep(q: Rows, o: Options, v: View): Transition {
    var best := Best(q.jobs, o, v, |q.jobs|);
    if best.None? then Transition(q, NothingToDo)
    else
      var id := best.value;
      var row := Taken(q.jobs[id], o.worker, v.now, o.leaseMs);
      var jobs := q.jobs[id := row];
      if !OneRunning(jobs) then Transition(q, Refused(ONE_RUNNING))
      else
        Transition(
          Rows(jobs, q.attempts + [Attempt(id, Latest(q.attempts, id) + 1, Open)]),
          Claimed(Handed(id, |q.attempts|, o.worker, row.attempts, row.maxAttempts, row.expiresAt)))
  }

  const CLAIM_CONTEST_LIMIT: nat := 5

  /** The first try that is not lost to the index decides; a claim that loses them all is empty. */
  function ClaimAmong(q: Rows, o: Options, views: seq<View>): Transition {
    if views == [] then Transition(q, NothingToDo)
    else
      var t := ClaimStep(q, o, views[0]);
      if t.reply == Refused(ONE_RUNNING) then ClaimAmong(q, o, views[1..]) else t
  }

  // ---------------------------------------------------------------------------------------
  // Ending a claim
  // ---------------------------------------------------------------------------------------

  function HeartbeatStep(q: Rows, id: nat, worker: nat, now: int, leaseMs: int): Transition {
    if id < |q.jobs| && q.jobs[id].status == Running && q.jobs[id].claim.Some? && q.jobs[id].claim.value.worker == worker then
      Transition(q.(jobs := q.jobs[id := q.jobs[id].(claim := Some(Claim(worker, now + leaseMs)))]), Told(true))
    else Transition(q, Told(false))
  }

  function SucceedStep(q: Rows, id: nat, attemptId: nat): Transition {
    var jobs := if id < |q.jobs| then q.jobs[id := Ended(q.jobs[id], Succeeded)] else q.jobs;
    Transition(Rows(jobs, Close(q.attempts, attemptId, Done)), Told(true))
  }

  function SupersedeStep(q: Rows, id: nat, attemptId: Option<nat>): Transition {
    var jobs := if id < |q.jobs| && (q.jobs[id].status == Ready || q.jobs[id].status == Running)
                then q.jobs[id := Ended(q.jobs[id], Cancelled)] else q.jobs;
    var attempts := if attemptId.Some? then Close(q.attempts, attemptId.value, Superseded) else q.attempts;
    Transition(Rows(jobs, attempts), Told(true))
  }

  /** The decision is taken from the claim's own copy of the counters and the deadline. */
  function Decide(job: Handed, retryable: bool, retryAfterMs: Option<int>, now: int, jitter: nat): Decision {
    NextAttempt(job.attempts, job.maxAttempts, now, job.expiresAt, retryable, retryAfterMs, jitter)
  }

  function FailStep(q: Rows, job: Handed, retryable: bool, retryAfterMs: Option<int>, now: int, jitter: nat): Transition {
    var decision := Decide(job, retryable, retryAfterMs, now, jitter);
    var jobs := if job.id < |q.jobs| then q.jobs[job.id := Settled(q.jobs[job.id], decision)] else q.jobs;
    if !OnePending(jobs) then Transition(q, Refused(ONE_PENDING))
    else Transition(Rows(jobs, Close(q.attempts, job.attemptId, Failed)), Decided(decision))
  }

  /** One statement for every claim whose lease ran out, except rows another sweep holds. */
  function ReopenLost(jobs: seq<Job>, now: int, locked: set<nat>): (r: seq<Job>)
    ensures |r| == |jobs|
    ensures forall i :: 0 <= i < |jobs| ==> r[i] == if Lost(jobs[i], now) && i !in locked then Reopened(jobs[i]) else jobs[i]
  {
    seq(|jobs|, i requires 0 <= i < |jobs| => if Lost(jobs[i], now) && i !in locked then Reopened(jobs[i]) else jobs[i])
  }

  predicate Closing(q: Rows, now: int, locked: set<nat>, a: Attempt) {
    a.outcome == Open && a.job < |q.jobs| && Lost(q.jobs[a.job], now) && a.job !in locked
  }

  function CloseLost(q: Rows, now: int, locked: set<nat>): (r: seq<Attempt>)
    ensures |r| == |q.attempts|
    ensures forall a :: 0 <= a < |r| ==>
              r[a] == if Closing(q, now, locked, q.attempts[a]) then q.attempts[a].(outcome := Reclaimed) else q.attempts[a]
  {
    seq(|q.attempts|, a requires 0 <= a < |q.attempts| =>
      if Closing(q, now, locked, q.attempts[a]) then q.attempts[a].(outcome := Reclaimed) else q.attempts[a])
  }

  function ClosingCount(q: Rows, now: int, locked: set<nat>, n: nat): nat
    requires n <= |q.attempts|
  {
    if n == 0 then 0
    else ClosingCount(q, now, locked, n - 1) + if Closing(q, now, locked, q.attempts[n - 1]) then 1 else 0
  }

  function ReclaimStep(q: Rows, now: int, locked: set<nat>): Transition {
    var jobs := ReopenLost(q.jobs, now, locked);
    if !OnePending(jobs) then Transition(q, Refused(ONE_PENDING))
    else Transition(Rows(jobs, CloseLost(q, now, locked)), Counted(ClosingCount(q, now, locked, |q.attempts|)))
  }

  predicate Overdue(j: Job, now: int) {
    j.status == Ready && j.expiresAt <= now
  }

  function Expire(jobs: seq<Job>, now: int): (r: seq<Job>)
    ensures |r| == |jobs|
    ensures forall i :: 0 <= i < |jobs| ==> r[i] == if Overdue(jobs[i], now) then jobs[i].(status := Dead) else jobs[i]
  {
    seq(|jobs|, i requires 0 <= i < |jobs| => if Overdue(jobs[i], now) then jobs[i].(status := Dead) else jobs[i])
  }

  function OverdueCount(jobs: seq<Job>, now: int): nat {
    if jobs == [] then 0
    else OverdueCount(jobs[..|jobs| - 1], now) + if Overdue(jobs[|jobs| - 1], now) then 1 else 0
  }

  function ExpireStep(q: Rows, now: int): Transition {
    Transition(q.(jobs := Expire(q.jobs, now)), Counted(OverdueCount(q.jobs, now)))
  }

  function ReleaseStep(q: Rows, id: nat, attemptId: nat, worker: nat): Transition {
    var held := id < |q.jobs| && q.jobs[id].status == Running && q.jobs[id].claim.Some? && q.jobs[id].claim.value.worker == worker;
    var jobs := if held then q.jobs[id := GivenBack(q.jobs[id])] else q.jobs;
    if !OnePending(jobs) then Transition(q, Refused(ONE_PENDING))
    else Transition(Rows(jobs, Close(q.attempts, attemptId, Reclaimed)), Told(true))
  }

  function ReplayStep(q: Rows, id: nat, now: int, windowMs: int): Transition {
    if id >= |q.jobs| || q.jobs[id].status != Dead then Transition(q, Told(false))
    else
      var jobs := q.jobs[id := Replayed(q.jobs[id], now, windowMs)];
      if !OnePending(jobs) then Transition(q, Refused(ONE_PENDING))
      else Transition(q.(jobs := jobs), Told(true))
  }
}
