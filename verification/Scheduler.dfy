/**
  Many replicas contending for the scheduler lease (apps/worker/src/scheduler.ts).

  Each replica keeps its own `leader` flag, which may be stale. A step of its loop is cut where the
  source awaits: anything may happen between reading the clock, the statement running, the reply
  arriving, the heartbeat, and the tick. Timers may fire late but not early. Replica clocks may be
  set differently from the database's but run at its rate.
 */
module Scheduler {
  import opened Stock
  import opened Lease

  /** Where a replica's loop stands. `now` is what the step read from the replica's clock. */
  datatype Phase =
    | Stopped
    | Idle
    | Acquiring(now: int)
    | Acquired(now: int, won: bool)
    | Renewing(now: int)
    | Renewed(now: int, still: bool)
    | Beating(now: int)
    | Ticking(now: int)
    | Releasing
    | GivenUp

  /** `wakeAt` is when an idle replica's timer is set to. */
  datatype Replica = Replica(running: bool, leader: bool, lastRenewAt: int, lastTickAt: int, wakeAt: int, phase: Phase)

  datatype Settings = Settings(lease: int, tick: int, contend: int)

  const DEFAULTS := Settings(90_000, 30_000, 10_000)

  function RenewInterval(s: Settings): int
    requires s.lease > 0
  {
    s.lease / 3
  }

  /** How long a replica waits between two steps. */
  function Delay(s: Settings, leader: bool): int
    requires s.lease > 0
  {
    if !leader then s.contend
    else if RenewInterval(s) <= s.tick then RenewInterval(s)
    else s.tick
  }

  // ---------------------------------------------------------------------------------------
  // One replica, between two awaits
  // ---------------------------------------------------------------------------------------

  /** The step has ended; the timer is set. */
  function Rested(r: Replica, s: Settings, clock: int): Replica
    requires s.lease > 0
  {
    r.(phase := Idle, wakeAt := clock + Delay(s, r.leader))
  }

  function Begun(r: Replica, s: Settings, clock: int): Replica
    requires s.lease > 0
  {
    r.(phase := if !r.leader then Acquiring(clock)
                else if clock - r.lastRenewAt >= RenewInterval(s) then Renewing(clock)
                else Beating(clock))
  }

  function AfterAcquire(r: Replica, s: Settings, clock: int): Replica
    requires r.phase.Acquired? && s.lease > 0
  {
    if r.phase.won then r.(leader := true, lastRenewAt := r.phase.now, lastTickAt := 0, phase := Beating(r.phase.now))
    else Rested(r, s, clock)
  }

  function AfterRenew(r: Replica, s: Settings, clock: int): Replica
    requires r.phase.Renewed? && s.lease > 0
  {
    var renewed := r.(lastRenewAt := r.phase.now);
    if r.phase.still then renewed.(phase := Beating(r.phase.now)) else Rested(renewed.(leader := false), s, clock)
  }

  function AfterHeartbeat(r: Replica, s: Settings, clock: int): Replica
    requires r.phase.Beating? && s.lease > 0
  {
    if clock - r.lastTickAt >= s.tick then r.(lastTickAt := clock, phase := Ticking(r.phase.now)) else Rested(r, s, clock)
  }

  /** A step that throws costs the leadership, and so does a release that does. */
  function Failed(r: Replica, s: Settings, clock: int): Replica
    requires s.lease > 0
  {
    if r.phase.Releasing? || r.phase.GivenUp? then r.(leader := false, phase := Stopped)
    else Rested(r.(leader := false), s, clock)
  }

  /** What `stop` does once the last step has ended, before and after the release. */
  function WoundDown(r: Replica): Replica {
    r.(phase := if r.leader then Releasing else Stopped)
  }

  function AfterRelease(r: Replica): Replica {
    r.(leader := false, phase := Stopped)
  }

  /** Who loses keeps out of the way for the contending interval and contends again after it; so does who
      loses the lease, or whose step fails. */
  lemma FollowersContend(r: Replica, s: Settings, clock: int, later: int)
    requires s.lease > 0
    ensures r.phase.Acquired? && !r.phase.won && !r.leader ==>
              AfterAcquire(r, s, clock) == r.(phase := Idle, wakeAt := clock + s.contend)
              && Begun(AfterAcquire(r, s, clock), s, later).phase == Acquiring(later)
    ensures r.phase.Renewed? && !r.phase.still ==>
              var after := AfterRenew(r, s, clock);
              && !after.leader && after.phase == Idle && after.wakeAt == clock + s.contend
              && Begun(after, s, later).phase == Acquiring(later)
    ensures !r.phase.Releasing? && !r.phase.GivenUp? ==>
              var after := Failed(r, s, clock);
              && !after.leader && after.phase == Idle && after.wakeAt == clock + s.contend
              && Begun(after, s, later).phase == Acquiring(later)
  {
  }

  /** The loop's variables, updated in place. Each method is what one action of the run model below
      does to its replica, proved equal to the function that action uses; runs are about those
      functions. */
  class Loop {
    var running: bool
    var leader: bool
    var lastRenewAt: int
    var lastTickAt: int
    var wakeAt: int
    var phase: Phase
    const settings: Settings

    ghost function Value(): Replica
      reads this
    {
      Replica(running, leader, lastRenewAt, lastTickAt, wakeAt, phase)
    }

    constructor (settings: Settings)
      ensures Value() == STOPPED && this.settings == settings
    {
      this.settings := settings;
      running, leader, lastRenewAt, lastTickAt, wakeAt, phase := false, false, 0, 0, 0, Stopped;
    }

    /** Action `TickDone`, and how every other step that ends here ends. */
    method Schedule(clock: int)
      requires settings.lease > 0
      modifies this
      ensures Value() == Rested(old(Value()), settings, clock)
    {
      wakeAt := clock + Delay(settings, leader);
      phase := Idle;
    }

    /** Action `Begin`. A follower contends; a leader asks for the row again once a renewal interval has passed. */
    method BeginStep(clock: int)
      requires settings.lease > 0
      modifies this
      ensures Value() == Begun(old(Value()), settings, clock)
      ensures !leader ==> phase == Acquiring(clock)
      ensures leader && phase.Beating? ==> clock < lastRenewAt + RenewInterval(settings)
    {
      if leader {
        if clock - lastRenewAt >= RenewInterval(settings) {
          phase := Renewing(clock);
        } else {
          phase := Beating(clock);
        }
      } else {
        phase := Acquiring(clock);
      }
    }

    /** Action `Return` of an acquisition. Whoever wins leads, and its first heartbeat is followed by a
        tick at once. */
    method OnAcquire(clock: int)
      requires phase.Acquired? && settings.lease > 0
      modifies this
      ensures Value() == AfterAcquire(old(Value()), settings, clock)
      ensures phase.Beating? <==> old(phase).won
      ensures phase.Beating? ==> leader && forall c :: c >= settings.tick ==> AfterHeartbeat(Value(), settings, c).phase.Ticking?
    {
      if !phase.won {
        Schedule(clock);
        return;
      }
      leader := true;
      lastRenewAt := phase.now;
      lastTickAt := 0;
      phase := Beating(phase.now);
    }

    /** Action `Return` of a renewal. Whoever lost the lease stops leading, and its next step contends. */
    method OnRenew(clock: int)
      requires phase.Renewed? && settings.lease > 0
      modifies this
      ensures Value() == AfterRenew(old(Value()), settings, clock)
      ensures !old(phase).still ==> !leader && forall c :: Begun(Value(), settings, c).phase == Acquiring(c)
      ensures old(phase).still ==> leader == old(leader) && phase == Beating(lastRenewAt)
    {
      lastRenewAt := phase.now;
      if !phase.still {
        leader := false;
        Schedule(clock);
        return;
      }
      phase := Beating(phase.now);
    }

    /** Action `Beat`. After a tick no heartbeat within the interval starts another. */
    method OnHeartbeat(clock: int)
      requires phase.Beating? && settings.lease > 0
      modifies this
      ensures Value() == AfterHeartbeat(old(Value()), settings, clock)
      ensures phase.Ticking? ==> forall c, r: Replica :: c < clock + settings.tick && r.phase.Beating? && r.lastTickAt == lastTickAt ==>
                                   !AfterHeartbeat(r, settings, c).phase.Ticking?
    {
      if clock - lastTickAt >= settings.tick {
        lastTickAt := clock;
        phase := Ticking(phase.now);
      } else {
        Schedule(clock);
      }
    }

    /** Action `Fail`. */
    method OnError(clock: int)
      requires settings.lease > 0
      modifies this
      ensures Value() == Failed(old(Value()), settings, clock)
      ensures !leader && (phase == Idle ==> forall c :: Begun(Value(), settings, c).phase == Acquiring(c))
    {
      leader := false;
      if phase.Releasing? || phase.GivenUp? {
        phase := Stopped;
      } else {
        Schedule(clock);
      }
    }

    /** Action `WindDown`. */
    method WindDownStep()
      modifies this
      ensures Value() == WoundDown(old(Value()))
      ensures phase == Stopped ==> !leader
    {
      if leader {
        phase := Releasing;
      } else {
        phase := Stopped;
      }
    }

    /** Action `Return` of a release. */
    method OnReleased()
      modifies this
      ensures Value() == AfterRelease(old(Value()))
      ensures !leader
    {
      leader := false;
      phase := Stopped;
    }
  }

  const STOPPED := Replica(false, false, 0, 0, 0, Stopped)

  // ---------------------------------------------------------------------------------------
  // All replicas together
  // ---------------------------------------------------------------------------------------

  /** `offsets[i]` is how far replica i's clock is ahead of the database's. */
  datatype World = World(clock: int, row: Option<Row>, replicas: seq<Replica>, offsets: seq<int>)

  datatype Action =
    | Elapse(ms: nat)                  // time passes
    | Begin(i: nat)                    // the timer fires and the step reads the clock
    | Execute(i: nat, stamp: int)      // the statement runs; `stamp` is its transaction's time
    | Return(i: nat)                   // the reply arrives
    | Beat(i: nat)                     // the heartbeat is written; tick if due
    | TickDone(i: nat)
    | Fail(i: nat)                     // the step throws
    | Stop(i: nat)
    | WindDown(i: nat)                 // the last step of a stopping replica has ended
    | Restart(i: nat)

  function Local(w: World, i: nat): int
    requires i < |w.replicas| == |w.offsets|
  {
    w.clock + w.offsets[i]
  }

  /** The database's time when the replica's clock read `t`. */
  function InDatabaseTime(w: World, i: nat, t: int): int
    requires i < |w.replicas| == |w.offsets|
  {
    t - w.offsets[i]
  }

  predicate Awaiting(p: Phase) {
    p.Acquiring? || p.Acquired? || p.Renewing? || p.Renewed? || p.Beating? || p.Releasing? || p.GivenUp?
  }

  predicate Enabled(w: World, a: Action)
    requires |w.replicas| == |w.offsets|
  {
    match a
    case Elapse(_) => true
    case Begin(i) =>
      i < |w.replicas| && w.replicas[i].phase == Idle && w.replicas[i].running && Local(w, i) >= w.replicas[i].wakeAt
    case Execute(i, stamp) =>
      && i < |w.replicas|
      && var p := w.replicas[i].phase;
         || p.Releasing?
         || ((p.Acquiring? || p.Renewing?) && InDatabaseTime(w, i, p.now) <= stamp <= w.clock)
    case Return(i) => i < |w.replicas| && var p := w.replicas[i].phase; p.Acquired? || p.Renewed? || p.GivenUp?
    case Beat(i) => i < |w.replicas| && w.replicas[i].phase.Beating?
    case TickDone(i) => i < |w.replicas| && w.replicas[i].phase.Ticking?
    case Fail(i) => i < |w.replicas| && Awaiting(w.replicas[i].phase)
    case Stop(i) => i < |w.replicas| && w.replicas[i].running
    case WindDown(i) => i < |w.replicas| && w.replicas[i].phase == Idle && !w.replicas[i].running
    case Restart(i) => i < |w.replicas| && w.replicas[i].phase.Stopped?
  }

  function With(w: World, i: nat, r: Replica): World
    requires i < |w.replicas|
  {
    w.(replicas := w.replicas[i := r])
  }

  function Executed(w: World, s: Settings, i: nat, stamp: int): World
    requires |w.replicas| == |w.offsets| && Enabled(w, Execute(i, stamp))
  {
    var r := w.replicas[i];
    match r.phase
    case Acquiring(now) =>
      var lease := AcquireRow(w.row, i, stamp, s.lease);
      With(w, i, r.(phase := Acquired(now, lease.Some?))).(row := if lease.Some? then lease else w.row)
    case Renewing(now) =>
      var lease := RenewRow(w.row, i, stamp, s.lease);
      With(w, i, r.(phase := Renewed(now, lease.Some?))).(row := if lease.Some? then lease else w.row)
    case _ => With(w, i, r.(phase := GivenUp)).(row := ReleaseRow(w.row, i))
  }

  function Next(w: World, s: Settings, a: Action): World
    requires |w.replicas| == |w.offsets| && s.lease > 0 && Enabled(w, a)
  {
    match a
    case Elapse(ms) => w.(clock := w.clock + ms)
    case Begin(i) => With(w, i, Begun(w.replicas[i], s, Local(w, i)))
    case Execute(i, stamp) => Executed(w, s, i, stamp)
    case Return(i) =>
      var r := w.replicas[i];
      With(w, i, match r.phase
                 case Acquired(_, _) => AfterAcquire(r, s, Local(w, i))
                 case Renewed(_, _) => AfterRenew(r, s, Local(w, i))
                 case _ => AfterRelease(r))
    case Beat(i) => With(w, i, AfterHeartbeat(w.replicas[i], s, Local(w, i)))
    case TickDone(i) => With(w, i, Rested(w.replicas[i], s, Local(w, i)))
    case Fail(i) => With(w, i, Failed(w.replicas[i], s, Local(w, i)))
    case Stop(i) => With(w, i, w.replicas[i].(running := false))
    case WindDown(i) => With(w, i, WoundDown(w.replicas[i]))
    case Restart(i) => With(w, i, w.replicas[i].(running := true, wakeAt := Local(w, i), phase := Idle))
  }

  // ---------------------------------------------------------------------------------------
  // What every step keeps
  // ---------------------------------------------------------------------------------------

  ghost predicate Holds(w: World, i: nat) {
    w.row.Some? && w.row.value.holder == i
  }

  /** A lease won or extended by a step that read the clock at `since` is still held until at least
      a full duration later, unless that duration has already gone by. */
  ghost predicate Covered(w: World, s: Settings, i: nat, since: int) {
    since <= w.clock
    && ((Holds(w, i) && w.row.value.expiresAt >= since + s.lease) || w.clock > since + s.lease)
  }

  /** How long before reading the clock a leader's step can have renewed last: only a leader that
      ticks more often than it renews has steps in between. */
  function Slack(s: Settings): int
    requires s.lease > 0
  {
    if s.tick < RenewInterval(s) then Max(0, RenewInterval(s) - 1) else 0
  }

  ghost predicate Good(w: World, s: Settings, i: nat)
    requires i < |w.replicas| == |w.offsets| && s.lease > 0
  {
    var r := w.replicas[i];
    && (r.leader && r.phase != GivenUp ==> Covered(w, s, i, InDatabaseTime(w, i, r.lastRenewAt)))
    && match r.phase
       case Stopped => !r.leader
       case Idle => r.leader ==> r.wakeAt >= r.lastRenewAt + Delay(s, true)
       case Acquiring(now) => !r.leader && now <= Local(w, i)
       case Acquired(now, won) => !r.leader && now <= Local(w, i) && (won ==> Covered(w, s, i, InDatabaseTime(w, i, now)))
       case Renewing(now) => r.leader && r.lastRenewAt <= now <= Local(w, i)
       case Renewed(now, still) => r.leader && now <= Local(w, i) && (still ==> Covered(w, s, i, InDatabaseTime(w, i, now)))
       case Beating(now) => r.leader && r.lastRenewAt <= now <= Local(w, i) && now - r.lastRenewAt <= Slack(s)
       case Ticking(now) => r.leader && r.lastRenewAt <= now <= Local(w, i) && now - r.lastRenewAt <= Slack(s)
       case Releasing => r.leader
       case GivenUp => r.leader
  }

  ghost predicate Inv(w: World, s: Settings) {
    && s.lease > 0
    && |w.replicas| == |w.offsets|
    && forall i :: 0 <= i < |w.replicas| ==> Good(w, s, i)
  }

  function Boot(clock: int, offsets: seq<int>): World {
    World(clock, None, seq(|offsets|, _ => STOPPED), offsets)
  }

  lemma BootInv(clock: int, offsets: seq<int>, s: Settings)
    requires s.lease > 0
    ensures Inv(Boot(clock, offsets), s)
  {
  }

  /** A step that leaves the row alone concerns only the replica that takes it. */
  lemma OneReplica(w: World, s: Settings, i: nat, r: Replica)
    requires Inv(w, s) && i < |w.replicas| && Good(With(w, i, r), s, i)
    ensures Inv(With(w, i, r), s)
  {
    var w' := With(w, i, r);
    forall j | 0 <= j < |w'.replicas| ensures Good(w', s, j) {
      if j != i {
        assert Good(w, s, j);
      }
    }
  }

  /** Whoever takes the row over does so after it has expired, and nobody gives up another's. */
  lemma OthersStayCovered(w: World, s: Settings, i: nat, j: nat, since: int, row: Option<Row>)
    requires Covered(w, s, j, since) && i != j
    requires row == w.row || row == ReleaseRow(w.row, i) || Holds(w, i)
             || (w.row.Some? && w.row.value.expiresAt < w.clock) || w.row.None?
    ensures Covered(w.(row := row), s, j, since)
  {
  }

  /** What a statement may do to the row leaves everybody else's promises alone. */
  lemma OthersStayGood(w: World, s: Settings, i: nat, stamp: int, j: nat)
    requires Inv(w, s) && Enabled(w, Execute(i, stamp)) && j < |w.replicas| && j != i
    ensures Good(Executed(w, s, i, stamp), s, j)
  {
    assert Good(w, s, j);
    var r := w.replicas[j];
    var row := Executed(w, s, i, stamp).row;
    if r.leader && r.phase != GivenUp {
      OthersStayCovered(w, s, i, j, InDatabaseTime(w, j, r.lastRenewAt), row);
    }
    if r.phase.Acquired? && r.phase.won {
      OthersStayCovered(w, s, i, j, InDatabaseTime(w, j, r.phase.now), row);
    }
    if r.phase.Renewed? && r.phase.still {
      OthersStayCovered(w, s, i, j, InDatabaseTime(w, j, r.phase.now), row);
    }
  }

  lemma ExecutedGood(w: World, s: Settings, i: nat, stamp: int)
    requires Inv(w, s) && Enabled(w, Execute(i, stamp))
    ensures Good(Executed(w, s, i, stamp), s, i)
  {
    assert Good(w, s, i);
  }

  lemma ExecuteKeeps(w: World, s: Settings, i: nat, stamp: int)
    requires Inv(w, s) && Enabled(w, Execute(i, stamp))
    ensures Inv(Executed(w, s, i, stamp), s)
  {
    ExecutedGood(w, s, i, stamp);
    forall j | 0 <= j < |w.replicas| && j != i ensures Good(Executed(w, s, i, stamp), s, j) {
      OthersStayGood(w, s, i, stamp, j);
    }
  }

  /** The replica that takes a step keeps its own promise: reading the clock, and hearing back. */
  lemma StepsGood(w: World, s: Settings, i: nat)
    requires Inv(w, s) && i < |w.replicas|
    ensures Enabled(w, Begin(i)) ==> Good(Next(w, s, Begin(i)), s, i)
    ensures Enabled(w, Return(i)) ==> Good(Next(w, s, Return(i)), s, i)
    ensures Enabled(w, Beat(i)) ==> Good(Next(w, s, Beat(i)), s, i)
  {
    assert Good(w, s, i);
  }

  lemma OtherStepsGood(w: World, s: Settings, i: nat)
    requires Inv(w, s) && i < |w.replicas|
    ensures Enabled(w, TickDone(i)) ==> Good(Next(w, s, TickDone(i)), s, i)
    ensures Enabled(w, Fail(i)) ==> Good(Next(w, s, Fail(i)), s, i)
  {
    assert Good(w, s, i);
  }

  lemma StoppingStepsGood(w: World, s: Settings, i: nat)
    requires Inv(w, s) && i < |w.replicas|
    ensures Enabled(w, Stop(i)) ==> Good(Next(w, s, Stop(i)), s, i)
    ensures Enabled(w, WindDown(i)) ==> Good(Next(w, s, WindDown(i)), s, i)
    ensures Enabled(w, Restart(i)) ==> Good(Next(w, s, Restart(i)), s, i)
  {
    assert Good(w, s, i);
  }

  lemma ElapseKeeps(w: World, s: Settings, ms: nat)
    requires Inv(w, s)
    ensures Inv(Next(w, s, Elapse(ms)), s)
  {
    forall j | 0 <= j < |w.replicas| ensures Good(Next(w, s, Elapse(ms)), s, j) {
      assert Good(w, s, j);
    }
  }

  /** The replica a step belongs to, for the steps that leave the row alone. */
  function Actor(a: Action): nat {
    match a
    case Elapse(_) => 0
    case Begin(i) => i
    case Execute(i, _) => i
    case Return(i) => i
    case Beat(i) => i
    case TickDone(i) => i
    case Fail(i) => i
    case Stop(i) => i
    case WindDown(i) => i
    case Restart(i) => i
  }

  lemma NextIsLocal(w: World, s: Settings, a: Action)
    requires |w.replicas| == |w.offsets| && s.lease > 0 && Enabled(w, a) && !a.Elapse? && !a.Execute?
    ensures Actor(a) < |w.replicas|
    ensures Next(w, s, a) == With(w, Actor(a), Next(w, s, a).replicas[Actor(a)])
  {
  }

  lemma NextKeeps(w: World, s: Settings, a: Action)
    requires Inv(w, s) && Enabled(w, a)
    ensures Inv(Next(w, s, a), s)
  {
    if a.Elapse? {
      ElapseKeeps(w, s, a.ms);
    } else if a.Execute? {
      ExecuteKeeps(w, s, a.i, a.stamp);
    } else {
      NextIsLocal(w, s, a);
      StepsGood(w, s, Actor(a));
      OtherStepsGood(w, s, Actor(a));
      StoppingStepsGood(w, s, Actor(a));
      OneReplica(w, s, Actor(a), Next(w, s, a).replicas[Actor(a)]);
    }
  }

  // ---------------------------------------------------------------------------------------
  // Every run
  // ---------------------------------------------------------------------------------------

  ghost predicate IsRun(w: World, s: Settings, actions: seq<Action>)
    requires |w.replicas| == |w.offsets| && s.lease > 0
    decreases actions
  {
    actions == [] || (Enabled(w, actions[0]) && IsRun(Next(w, s, actions[0]), s, actions[1..]))
  }

  ghost function After(w: World, s: Settings, actions: seq<Action>): (r: World)
    requires |w.replicas| == |w.offsets| && s.lease > 0 && IsRun(w, s, actions)
    ensures |r.replicas| == |r.offsets|
    decreases actions
  {
    if actions == [] then w else After(Next(w, s, actions[0]), s, actions[1..])
  }

  lemma {:induction false} RunKeeps(w: World, s: Settings, actions: seq<Action>)
    requires Inv(w, s) && IsRun(w, s, actions)
    ensures Inv(After(w, s, actions), s)
    decreases actions
  {
    if actions != [] {
      NextKeeps(w, s, actions[0]);
      RunKeeps(Next(w, s, actions[0]), s, actions[1..]);
    }
  }

  /** The replica believes it leads, and no more than a lease has passed on its clock since the
      step that last won or extended the lease read it. */
  ghost predicate FreshLeader(w: World, s: Settings, i: nat)
    requires i < |w.replicas| == |w.offsets|
  {
    && w.replicas[i].leader && w.replicas[i].phase != GivenUp
    && Local(w, i) - w.replicas[i].lastRenewAt <= s.lease
  }

  /** A fresh leader really holds the row, and its lease has not run out. */
  lemma FreshLeaderHoldsTheLease(w: World, s: Settings, i: nat)
    requires Inv(w, s) && i < |w.replicas| && FreshLeader(w, s, i)
    ensures Holds(w, i) && w.row.value.expiresAt >= w.clock
  {
    assert Good(w, s, i);
  }

  /** However the replicas are interleaved, delayed, stopped and restarted, and however their clocks
      are set, no two of them are fresh leaders at once. */
  lemma OneFreshLeader(clock: int, offsets: seq<int>, s: Settings, actions: seq<Action>, i: nat, j: nat)
    requires s.lease > 0 && IsRun(Boot(clock, offsets), s, actions)
    ensures var w := After(Boot(clock, offsets), s, actions);
            i < |w.replicas| && j < |w.replicas| && FreshLeader(w, s, i) && FreshLeader(w, s, j) ==> i == j
  {
    BootInv(clock, offsets, s);
    RunKeeps(Boot(clock, offsets), s, actions);
    var w := After(Boot(clock, offsets), s, actions);
    if i < |w.replicas| && j < |w.replicas| && FreshLeader(w, s, i) && FreshLeader(w, s, j) {
      FreshLeaderHoldsTheLease(w, s, i);
      FreshLeaderHoldsTheLease(w, s, j);
    }
  }

  // ---------------------------------------------------------------------------------------
  // What a run shows of one replica
  // ---------------------------------------------------------------------------------------

  /** The replica does not come to lead during these actions. */
  ghost predicate NeverWins(w: World, s: Settings, actions: seq<Action>, i: nat)
    requires |w.replicas| == |w.offsets| && s.lease > 0 && IsRun(w, s, actions)
    decreases actions
  {
    actions == []
    || ((actions[0] == Return(i) ==> !w.replicas[i].phase.Acquired? || !w.replicas[i].phase.won)
        && NeverWins(Next(w, s, actions[0]), s, actions[1..], i))
  }

  /** A replica that has been told its lease is lost starts no tick, whatever happens, until it wins
      the lease again. */
  lemma {:induction false} LostLeaseStopsTicking(w: World, s: Settings, actions: seq<Action>, i: nat)
    requires Inv(w, s) && i < |w.replicas| && !w.replicas[i].leader
    requires IsRun(w, s, actions) && NeverWins(w, s, actions, i)
    ensures i < |After(w, s, actions).replicas|
    ensures !After(w, s, actions).replicas[i].leader && !After(w, s, actions).replicas[i].phase.Ticking?
    decreases actions
  {
    assert Good(w, s, i);
    if actions != [] {
      NextKeeps(w, s, actions[0]);
      LostLeaseStopsTicking(Next(w, s, actions[0]), s, actions[1..], i);
    }
  }

  lemma {:induction false} LastTickOnlyGrows(w: World, s: Settings, actions: seq<Action>, i: nat, since: int)
    requires Inv(w, s) && i < |w.replicas| && w.replicas[i].lastTickAt >= since && Local(w, i) >= since
    requires IsRun(w, s, actions) && NeverWins(w, s, actions, i)
    ensures i < |After(w, s, actions).replicas| && After(w, s, actions).replicas[i].lastTickAt >= since
    decreases actions
  {
    if actions != [] {
      NextKeeps(w, s, actions[0]);
      LastTickOnlyGrows(Next(w, s, actions[0]), s, actions[1..], i, since);
    }
  }

  /** Between two ticks of one replica that stays leader lies at least the tick interval. */
  lemma TicksAreSpaced(w: World, s: Settings, actions: seq<Action>, i: nat)
    requires Inv(w, s) && Enabled(w, Beat(i)) && Next(w, s, Beat(i)).replicas[i].phase.Ticking?
    requires IsRun(Next(w, s, Beat(i)), s, actions) && NeverWins(Next(w, s, Beat(i)), s, actions, i)
    ensures var later := After(Next(w, s, Beat(i)), s, actions);
            && i < |later.replicas|
            && (Enabled(later, Beat(i)) && Next(later, s, Beat(i)).replicas[i].phase.Ticking? ==>
                  Local(later, i) >= Local(w, i) + s.tick)
  {
    NextKeeps(w, s, Beat(i));
    LastTickOnlyGrows(Next(w, s, Beat(i)), s, actions, i, Local(w, i));
  }

  /** A leader that stops in time hands over at once: as soon as its release has run, any other
      replica's statement wins. */
  lemma StoppingHandsOver(w: World, s: Settings, i: nat, stamp: int, j: nat, stamp': int)
    requires Inv(w, s) && i < |w.replicas| && w.replicas[i].phase.Releasing? && FreshLeader(w, s, i)
    requires Enabled(w, Execute(i, stamp)) && j != i
    requires Enabled(Executed(w, s, i, stamp), Execute(j, stamp')) && w.replicas[j].phase.Acquiring?
    ensures var later := Executed(Executed(w, s, i, stamp), s, j, stamp');
            Holds(later, j) && later.replicas[j].phase == Acquired(w.replicas[j].phase.now, true)
  {
    FreshLeaderHoldsTheLease(w, s, i);
  }
}
