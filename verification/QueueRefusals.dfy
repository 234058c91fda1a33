/**
  When the queue's unique indexes refuse an operation, what an accepted one did, and what goes wrong
  when a claim is settled that has been taken away.
 */
module QueueRefusals {
  import opened Stock
  import opened Retry
  import opened Queue
  import opened QueueRuns

  // ---------------------------------------------------------------------------------------
  // Exactly when
  // ---------------------------------------------------------------------------------------

  /** Another job is waiting under the same dedupe key. */
  ghost predicate Taken(jobs: seq<Job>, id: nat)
    requires id < |jobs|
  {
    exists k :: 0 <= k < |jobs| && k != id && jobs[k].status == Ready && SameKey(jobs[k].dedupeKey, jobs[id].dedupeKey)
  }

  lemma BackToReady(jobs: seq<Job>, id: nat, j: Job)
    requires OnePending(jobs) && id < |jobs| && j.status == Ready && j.dedupeKey == jobs[id].dedupeKey
    ensures OnePending(jobs[id := j]) <==> !Taken(jobs, id)
  {
    var after := jobs[id := j];
    if Taken(jobs, id) {
      var k :| 0 <= k < |jobs| && k != id && jobs[k].status == Ready && SameKey(jobs[k].dedupeKey, jobs[id].dedupeKey);
      assert Twins(after[k], after[id]) && Twins(after[id], after[k]);
    } else {
      forall a, b | 0 <= a < b < |after| ensures !Twins(after[a], after[b]) {
        assert !Twins(jobs[a], jobs[b]);
      }
    }
  }

  /** An open claim's failure is refused if and only if it would be retried while another job waits
      under the same dedupe key; the row then stays running. */
  lemma FailRefusedExactly(w: World, a: nat, retryable: bool, retryAfterMs: Option<int>, now: int, jitter: nat)
    requires Inv(w) && Allowed(w, Fail(a, retryable, retryAfterMs, now, jitter))
    ensures var t := StepOf(w, Fail(a, retryable, retryAfterMs, now, jitter));
            var h := w.handed[a];
            && h.id < |w.queue.jobs|
            && (t.reply.Refused? <==>
                  Decide(h, retryable, retryAfterMs, now, jitter).Again? && Taken(w.queue.jobs, h.id))
            && (t.reply.Refused? ==> t.queue == w.queue && w.queue.jobs[h.id].status == Running)
  {
    OpenIsRunning(w, a);
    var h := w.handed[a];
    var d := Decide(h, retryable, retryAfterMs, now, jitter);
    var row := Settled(w.queue.jobs[h.id], d);
    if d.Again? {
      BackToReady(w.queue.jobs, h.id, row);
    } else {
      PendingKept(w.queue.jobs, h.id, row);
    }
  }

  /** A failure that is retried leaves the job waiting, with an attempt left, for a time inside its
      window; otherwise it ends it. */
  lemma FailureEffect(w: World, a: nat, retryable: bool, retryAfterMs: Option<int>, now: int, jitter: nat)
    requires Inv(w) && Allowed(w, Fail(a, retryable, retryAfterMs, now, jitter))
    requires StepOf(w, Fail(a, retryable, retryAfterMs, now, jitter)).reply.Decided?
    ensures var t := StepOf(w, Fail(a, retryable, retryAfterMs, now, jitter));
            var id := w.handed[a].id;
            && id < |w.queue.jobs|
            && t.queue.attempts == w.queue.attempts[a := w.queue.attempts[a].(outcome := Failed)]
            && match t.reply.decision
               case Again(runAt, delayMs) =>
                 && now <= runAt <= w.queue.jobs[id].expiresAt
                 && w.queue.jobs[id].attempts < w.queue.jobs[id].maxAttempts
                 && t.queue.jobs == w.queue.jobs[id := w.queue.jobs[id].(status := Ready, runAt := runAt, claim := None)]
               case DeadLetter(_) =>
                 t.queue.jobs == w.queue.jobs[id := w.queue.jobs[id].(status := Dead, claim := None)]
  {
    OpenIsRunning(w, a);
    var h := w.handed[a];
    RetriedExactly(h.attempts, h.maxAttempts, now, h.expiresAt, retryable, retryAfterMs, jitter);
  }

  lemma ReleaseRefusedExactly(w: World, a: nat)
    requires Inv(w) && Allowed(w, Release(a))
    ensures w.handed[a].id < |w.queue.jobs|
    ensures StepOf(w, Release(a)).reply.Refused? <==> Taken(w.queue.jobs, w.handed[a].id)
  {
    OpenIsRunning(w, a);
    BackToReady(w.queue.jobs, w.handed[a].id, GivenBack(w.queue.jobs[w.handed[a].id]));
  }

  /** A dead job can be replayed unless a job with its dedupe key is waiting. */
  lemma ReplayExactly(q: Rows, id: nat, now: int, windowMs: int)
    requires Sound(q) && id < |q.jobs|
    ensures var t := ReplayStep(q, id, now, windowMs);
            && (t.reply == Told(true) <==> q.jobs[id].status == Dead && !Taken(q.jobs, id))
            && (t.reply != Told(true) ==> t.queue == q)
            && (t.reply == Told(true) && windowMs > 0 ==> Due(t.queue.jobs[id], now))
  {
    assert Budgeted(q.jobs[id]);
    if q.jobs[id].status == Dead {
      BackToReady(q.jobs, id, Replayed(q.jobs[id], now, windowMs));
    }
  }

  /** What a sweep would put back in the queue. */
  predicate Reopening(j: Job, now: int, locked: set<nat>, id: nat) {
    Lost(j, now) && id !in locked && j.attempts < j.maxAttempts
  }

  /** A job the sweep would put back has the key of one that waits or would be put back too. */
  ghost predicate Collides(q: Rows, now: int, locked: set<nat>, i: nat, k: nat)
    requires i < |q.jobs| && k < |q.jobs|
  {
    && i != k
    && Reopening(q.jobs[i], now, locked, i)
    && SameKey(q.jobs[i].dedupeKey, q.jobs[k].dedupeKey)
    && (q.jobs[k].status == Ready || Reopening(q.jobs[k], now, locked, k))
  }

  lemma ReadyAfterwards(q: Rows, now: int, locked: set<nat>, i: nat)
    requires Sound(q) && i < |q.jobs|
    ensures ReopenLost(q.jobs, now, locked)[i].status == Ready
            <==> q.jobs[i].status == Ready || Reopening(q.jobs[i], now, locked, i)
    ensures ReopenLost(q.jobs, now, locked)[i].dedupeKey == q.jobs[i].dedupeKey
  {
    assert Budgeted(q.jobs[i]);
  }

  lemma CollisionRefuses(q: Rows, now: int, locked: set<nat>, i: nat, k: nat)
    requires Sound(q) && i < |q.jobs| && k < |q.jobs| && Collides(q, now, locked, i, k)
    ensures !OnePending(ReopenLost(q.jobs, now, locked))
  {
    var jobs := ReopenLost(q.jobs, now, locked);
    ReadyAfterwards(q, now, locked, i);
    ReadyAfterwards(q, now, locked, k);
    assert Twins(jobs[i], jobs[k]) && Twins(jobs[k], jobs[i]);
  }

  lemma RefusalCollides(q: Rows, now: int, locked: set<nat>) returns (i: nat, k: nat)
    requires Sound(q) && !OnePending(ReopenLost(q.jobs, now, locked))
    ensures i < |q.jobs| && k < |q.jobs| && Collides(q, now, locked, i, k)
  {
    var jobs := ReopenLost(q.jobs, now, locked);
    var a, b :| 0 <= a < b < |jobs| && Twins(jobs[a], jobs[b]);
    ReadyAfterwards(q, now, locked, a);
    ReadyAfterwards(q, now, locked, b);
    assert !Twins(q.jobs[a], q.jobs[b]);
    i, k := if Reopening(q.jobs[a], now, locked, a) then a else b, if Reopening(q.jobs[a], now, locked, a) then b else a;
  }

  /** The sweep is one statement: it is refused, for every lost job at once, if and only if one of
      the jobs it would put back collides. */
  lemma ReclaimRefusedExactly(q: Rows, now: int, locked: set<nat>)
    requires Sound(q)
    ensures ReclaimStep(q, now, locked).reply.Refused? <==>
              exists i: nat, k: nat :: i < |q.jobs| && k < |q.jobs| && Collides(q, now, locked, i, k)
    ensures ReclaimStep(q, now, locked).reply.Refused? ==> ReclaimStep(q, now, locked).queue == q
  {
    if ReclaimStep(q, now, locked).reply.Refused? {
      var i, k := RefusalCollides(q, now, locked);
    } else if i: nat, k: nat :| i < |q.jobs| && k < |q.jobs| && Collides(q, now, locked, i, k) {
      CollisionRefuses(q, now, locked, i, k);
    }
  }

  /** The jobs whose records the sweep closes, among the first `n` records. */
  function ClosedIds(q: Rows, now: int, locked: set<nat>, n: nat): set<nat>
    requires n <= |q.attempts|
  {
    if n == 0 then {}
    else ClosedIds(q, now, locked, n - 1) + if Closing(q, now, locked, q.attempts[n - 1]) then {q.attempts[n - 1].job} else {}
  }

  lemma {:induction false} ClosedRecord(q: Rows, now: int, locked: set<nat>, n: nat, id: nat) returns (a: nat)
    requires n <= |q.attempts| && id in ClosedIds(q, now, locked, n)
    ensures a < n && Closing(q, now, locked, q.attempts[a]) && q.attempts[a].job == id
  {
    if Closing(q, now, locked, q.attempts[n - 1]) && q.attempts[n - 1].job == id {
      a := n - 1;
    } else {
      a := ClosedRecord(q, now, locked, n - 1, id);
    }
  }

  lemma {:induction false} RecordIsClosed(q: Rows, now: int, locked: set<nat>, n: nat, a: nat)
    requires a < n <= |q.attempts| && Closing(q, now, locked, q.attempts[a])
    ensures q.attempts[a].job in ClosedIds(q, now, locked, n)
  {
    if a < n - 1 {
      RecordIsClosed(q, now, locked, n - 1, a);
    }
  }

  /** One record per job: the next to be closed belongs to another job than those before. */
  lemma CountedOnce(q: Rows, now: int, locked: set<nat>, n: nat)
    requires Accounted(q) && 1 <= n <= |q.attempts| && Closing(q, now, locked, q.attempts[n - 1])
    ensures q.attempts[n - 1].job !in ClosedIds(q, now, locked, n - 1)
  {
    var id := q.attempts[n - 1].job;
    assert OpenOf(q.attempts, id) <= 1;
    if id in ClosedIds(q, now, locked, n - 1) {
      var a := ClosedRecord(q, now, locked, n - 1, id);
      OnlyOne(q.attempts, a, n - 1, id);
    }
  }

  lemma {:induction false} ClosedOnePerJob(q: Rows, now: int, locked: set<nat>, n: nat)
    requires Accounted(q) && n <= |q.attempts|
    ensures ClosingCount(q, now, locked, n) == |ClosedIds(q, now, locked, n)|
  {
    if n > 0 {
      ClosedOnePerJob(q, now, locked, n - 1);
      if Closing(q, now, locked, q.attempts[n - 1]) {
        CountedOnce(q, now, locked, n);
        OneMoreId(ClosedIds(q, now, locked, n - 1), q.attempts[n - 1].job);
      } else {
        assert ClosedIds(q, now, locked, n) == ClosedIds(q, now, locked, n - 1);
      }
    }
  }

  lemma OneMoreId(ids: set<nat>, id: nat)
    requires id !in ids
    ensures |ids + {id}| == |ids| + 1
  {
  }

  /** The running jobs whose lease ended before `now`, but those whose rows another holds locked. */
  function LostIds(q: Rows, now: int, locked: set<nat>): set<nat> {
    set id: nat | && id < |q.jobs| && q.jobs[id].status == Running && id !in locked
                  && q.jobs[id].claim.Some? && q.jobs[id].claim.value.leaseExpiresAt < now
  }

  lemma LostAreClosed(q: Rows, now: int, locked: set<nat>)
    requires Accounted(q)
    ensures LostIds(q, now, locked) == ClosedIds(q, now, locked, |q.attempts|)
  {
    forall id ensures id in LostIds(q, now, locked) <==> id in ClosedIds(q, now, locked, |q.attempts|) {
      if id in LostIds(q, now, locked) {
        var a := SomeOpen(q.attempts, id);
        RecordIsClosed(q, now, locked, |q.attempts|, a);
      }
      if id in ClosedIds(q, now, locked, |q.attempts|) {
        var a := ClosedRecord(q, now, locked, |q.attempts|, id);
      }
    }
  }

  /** An accepted sweep takes every lost claim away but those whose rows another holds locked: each
      job is ready again, or dead when its attempts are spent, no attempt is refunded, nothing else
      is touched, and the sweep reports exactly how many jobs it moved. */
  lemma ReclaimEffect(q: Rows, now: int, locked: set<nat>)
    requires Sound(q) && ReclaimStep(q, now, locked).reply.Counted?
    ensures var t := ReclaimStep(q, now, locked);
            && t.reply.count == |LostIds(q, now, locked)|
            && |t.queue.jobs| == |q.jobs|
            && forall id: nat :: id < |q.jobs| ==>
                 if id in LostIds(q, now, locked)
                 then t.queue.jobs[id] == q.jobs[id].(status := if q.jobs[id].attempts < q.jobs[id].maxAttempts then Ready else Dead,
                                                      claim := None)
                      && OpenOf(t.queue.attempts, id) == 0
                 else t.queue.jobs[id] == q.jobs[id]
  {
    LostAreClosed(q, now, locked);
    ClosedOnePerJob(q, now, locked, |q.attempts|);
    ReclaimKeeps(q, now, locked);
  }

  /** A try of a claim is refused if and only if the job it picked is serialized with a running one
      it could not see. */
  lemma ClaimRefusedExactly(q: Rows, o: Options, v: View)
    requires Sound(q)
    ensures ClaimStep(q, o, v).reply.Refused? <==>
              var best := Best(q.jobs, o, v, |q.jobs|);
              best.Some? && exists r :: 0 <= r < |q.jobs| && r in v.hidden && q.jobs[r].status == Running
                              && SameKey(q.jobs[r].serializationKey, q.jobs[best.value].serializationKey)
    ensures v.hidden == {} ==> !ClaimStep(q, o, v).reply.Refused?
  {
    var best := Best(q.jobs, o, v, |q.jobs|);
    if best.Some? {
      SerializedExactly(q.jobs, best.value, Queue.Taken(q.jobs[best.value], o.worker, v.now, o.leaseMs));
    }
  }

  lemma SerializedExactly(jobs: seq<Job>, id: nat, j: Job)
    requires OneRunning(jobs) && id < |jobs| && jobs[id].status != Running
    requires j.status == Running && j.serializationKey == jobs[id].serializationKey
    ensures !OneRunning(jobs[id := j]) <==>
              exists r :: 0 <= r < |jobs| && jobs[r].status == Running && SameKey(jobs[r].serializationKey, jobs[id].serializationKey)
  {
    var after := jobs[id := j];
    if r :| 0 <= r < |jobs| && jobs[r].status == Running && SameKey(jobs[r].serializationKey, jobs[id].serializationKey) {
      assert Contest(after[r], after[id]) && Contest(after[id], after[r]);
    } else {
      forall a, b | 0 <= a < b < |after| ensures !Contest(after[a], after[b]) {
        assert !Contest(jobs[a], jobs[b]);
      }
    }
  }

  /** A claim never reports a lost contest: it takes a job some try picked, or comes back empty. */
  lemma {:induction false} ContestsAreSilent(q: Rows, o: Options, views: seq<View>)
    requires Sound(q)
    ensures var t := ClaimAmong(q, o, views);
            && Sound(t.queue)
            && (t.reply == NothingToDo ==> t.queue == q)
            && (t.reply != NothingToDo ==> t.reply.Claimed? && exists v :: v in views && t == ClaimStep(q, o, v))
  {
    if views != [] {
      ClaimKeeps(q, o, views[0]);
      if ClaimStep(q, o, views[0]).reply == Refused(ONE_RUNNING) {
        ContestsAreSilent(q, o, views[1..]);
      } else {
        assert views[0] in views;
      }
    }
  }

  /** Adding a job under a key that is already waiting adds nothing and names the job that waits;
      otherwise exactly one job is added, due at its time. */
  lemma EnqueueExactly(q: Rows, input: Input)
    requires Sound(q)
    ensures var t := EnqueueStep(q, input);
            match t.reply
            case Pending(id, true) =>
              t.queue == q && id < |q.jobs| && q.jobs[id].status == Ready && SameKey(q.jobs[id].dedupeKey, input.dedupeKey)
            case Pending(id, false) =>
              && id == |q.jobs| && t.queue.jobs == q.jobs + [Fresh(input)] && t.queue.attempts == q.attempts
              && (forall k :: 0 <= k < |q.jobs| && q.jobs[k].status == Ready ==> !SameKey(q.jobs[k].dedupeKey, input.dedupeKey))
              && (input.windowMs > 0 ==> Due(t.queue.jobs[id], input.runAt))
            case _ => t == Transition(q, Refused(POSITIVE_MAX)) && input.maxAttempts < 1
  {
  }

  /** Enqueuing takes two statements when the key was taken: the insert meets `before`, and the
      look for the winner meets `later`. A winner that has ended in between is not waited for. */
  function EnqueueAcross(before: Rows, later: Rows, input: Input): Transition {
    var first := EnqueueStep(before, input);
    if !first.reply.Pending? || !first.reply.deduplicated then first
    else
      var winner := PendingWith(later.jobs, input.dedupeKey);
      if winner.Some? then Transition(later, Pending(winner.value, true))
      else EnqueueStep(later, input.(dedupeKey := None))
  }

  /** Whatever happened in between, the wake-up is not lost: the job named is waiting, and either it
      waits under the key asked for or it is a new one, due at its time. */
  lemma WakeUpIsNeverLost(before: Rows, later: Rows, input: Input)
    requires Sound(before) && Sound(later) && input.maxAttempts >= 1
    ensures var t := EnqueueAcross(before, later, input);
            && t.reply.Pending? && Sound(t.queue)
            && t.reply.id < |t.queue.jobs| && t.queue.jobs[t.reply.id].status == Ready
            && (t.reply.deduplicated ==> t.queue == later && SameKey(t.queue.jobs[t.reply.id].dedupeKey, input.dedupeKey))
            && (!t.reply.deduplicated && input.windowMs > 0 ==> Due(t.queue.jobs[t.reply.id], input.runAt))
            && (!t.reply.deduplicated ==> |t.queue.jobs| == t.reply.id + 1)
  {
    EnqueueKeeps(before, input);
    EnqueueKeeps(later, input.(dedupeKey := None));
  }

  // ---------------------------------------------------------------------------------------
  // What can go wrong
  // ---------------------------------------------------------------------------------------

  function Row(key: Option<nat>, dedupe: Option<nat>, status: Status, claim: Option<Queue.Claim>): Job {
    Job(0, 50, key, dedupe, status, if status == Ready then 0 else 1, 10, 0, 1000, claim)
  }

  /** Job 0 is running under dedupe key 7 while its successor waits under the same key; job 2 has
      nothing to do with either. */
  const COLLIDING := Rows(
    [Row(None, Some(7), Running, Some(Queue.Claim(1, 100))), Row(None, Some(7), Ready, None),
     Row(None, None, Running, Some(Queue.Claim(2, 100)))],
    [Attempt(0, 1, Open), Attempt(2, 1, Open)])

  lemma CollidingIsSound()
    ensures Sound(COLLIDING)
  {
    var attempts := COLLIDING.attempts;
    assert attempts[..1] == [Attempt(0, 1, Open)] && attempts[..1][..0] == [] && attempts[..2] == attempts;
  }

  /** One collision keeps every lost job from being reclaimed: both leases have run out, and the sweep
      changes nothing, now or at any later time. */
  lemma OneCollisionBlocksTheSweep(now: int)
    requires now > 100
    ensures Sound(COLLIDING) && Lost(COLLIDING.jobs[2], now)
    ensures ReclaimStep(COLLIDING, now, {}) == Transition(COLLIDING, Refused(ONE_PENDING))
  {
    CollidingIsSound();
    assert Collides(COLLIDING, now, {}, 0, 1);
    CollisionRefuses(COLLIDING, now, {}, 0, 1);
  }

  /** Job 0 was lost by worker 1 and claimed again by worker 2. */
  const CLAIMED_AGAIN := Rows([Row(Some(3), None, Running, Some(Queue.Claim(2, 500))).(attempts := 2)],
                              [Attempt(0, 1, Reclaimed), Attempt(0, 2, Open)])

  const AGAIN_READY := Rows([Row(Some(3), None, Ready, None).(attempts := 2, runAt := 200)],
                            [Attempt(0, 1, Failed), Attempt(0, 2, Open)])

  lemma ClaimedAgainIsSound()
    ensures Sound(CLAIMED_AGAIN)
  {
    var attempts := CLAIMED_AGAIN.attempts;
    assert attempts[..1] == [Attempt(0, 1, Reclaimed)] && attempts[..1][..0] == [] && attempts[..2] == attempts;
  }

  /** The first worker's late failure is accepted: the job is taken away from its new holder, a third
      worker is handed it as well, and two attempts of one serialized job are open at once. */
  lemma StaleFailureRunsTwice()
    ensures Sound(CLAIMED_AGAIN)
    ensures FailStep(CLAIMED_AGAIN, Handed(0, 0, 1, 1, 10, 1000), true, None, 200, 0)
            == Transition(AGAIN_READY, Decided(Again(200, 0)))
    ensures var u := ClaimStep(AGAIN_READY, Options(3, 60, [], None), View(200, {}, {}));
            u.reply.Claimed? && OpenOf(u.queue.attempts, 0) == 2
  {
    ClaimedAgainIsSound();
    ClaimedThirdTime();
  }

  lemma ClaimedThirdTime()
    ensures var u := ClaimStep(AGAIN_READY, Options(3, 60, [], None), View(200, {}, {}));
            u.reply.Claimed? && OpenOf(u.queue.attempts, 0) == 2
  {
    var u := ClaimStep(AGAIN_READY, Options(3, 60, [], None), View(200, {}, {}));
    assert Claimable(AGAIN_READY.jobs, Options(3, 60, [], None), View(200, {}, {}), 0);
    assert Best(AGAIN_READY.jobs, Options(3, 60, [], None), View(200, {}, {}), 0) == None;
    CountsAppend([], Attempt(0, 1, Failed), 0);
    CountsAppend([Attempt(0, 1, Failed)], Attempt(0, 2, Open), 0);
    assert AGAIN_READY.attempts == [] + [Attempt(0, 1, Failed)] + [Attempt(0, 2, Open)];
    CountsAppend(AGAIN_READY.attempts, u.queue.attempts[2], 0);
  }
}
