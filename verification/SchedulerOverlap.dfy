/**
  How long a step of the scheduler may take, heartbeat and tick together, before two replicas can be
  inside their ticks at once; and that with any longer bound they can.
 */
module SchedulerOverlap {
  import opened Stock
  import opened Lease
  import opened Scheduler

  /** The longest a step may take: a lease, less what may have gone by since the last renewal. */
  function Patience(s: Settings): int
    requires s.lease > 0
  {
    s.lease - Slack(s)
  }

  /** How long ago the step that is now ticking read its clock. */
  function Spent(w: World, i: nat): int
    requires i < |w.replicas| == |w.offsets| && w.replicas[i].phase.Ticking?
  {
    Local(w, i) - w.replicas[i].phase.now
  }

  ghost predicate TicksWithin(w: World, i: nat, bound: int) {
    i < |w.replicas| == |w.offsets| && w.replicas[i].phase.Ticking? && Spent(w, i) <= bound
  }

  // ---------------------------------------------------------------------------------------
  // Short steps do not overlap
  // ---------------------------------------------------------------------------------------

  /** A tick that has not outlasted the bound runs under a lease of its own that nobody can take. */
  lemma TickRunsUnderLease(w: World, s: Settings, i: nat)
    requires Inv(w, s) && TicksWithin(w, i, Patience(s))
    ensures FreshLeader(w, s, i) && Holds(w, i) && w.row.value.expiresAt >= w.clock
  {
    assert Good(w, s, i);
    FreshLeaderHoldsTheLease(w, s, i);
  }

  lemma ShortStepsDoNotOverlap(clock: int, offsets: seq<int>, s: Settings, actions: seq<Action>, i: nat, j: nat)
    requires s.lease > 0 && IsRun(Boot(clock, offsets), s, actions)
    ensures var w := After(Boot(clock, offsets), s, actions);
            TicksWithin(w, i, Patience(s)) && TicksWithin(w, j, Patience(s)) ==> i == j
  {
    BootInv(clock, offsets, s);
    RunKeeps(Boot(clock, offsets), s, actions);
    var w := After(Boot(clock, offsets), s, actions);
    if TicksWithin(w, i, Patience(s)) && TicksWithin(w, j, Patience(s)) {
      TickRunsUnderLease(w, s, i);
      TickRunsUnderLease(w, s, j);
    }
  }

  /** The moment a tick starts, in every run: within the bound its lease is its own and nobody can
      have taken it; short of the bound, or of two thirds of a lease, it has not run out either. */
  lemma TickStartsUnderLease(clock: int, offsets: seq<int>, s: Settings, actions: seq<Action>, i: nat)
    requires s.lease > 0 && IsRun(Boot(clock, offsets), s, actions)
    requires Enabled(After(Boot(clock, offsets), s, actions), Beat(i))
    ensures var w := After(Boot(clock, offsets), s, actions);
            var w' := Next(w, s, Beat(i));
            var waited := Local(w, i) - w.replicas[i].phase.now;
            w'.replicas[i].phase.Ticking? ==>
              && (waited <= Patience(s) ==> Holds(w', i) && w'.row.value.expiresAt >= w'.clock)
              && (waited < Patience(s) ==> w'.row.value.expiresAt > w'.clock)
              && (3 * waited < 2 * s.lease ==> waited < Patience(s))
  {
    BootInv(clock, offsets, s);
    RunKeeps(Boot(clock, offsets), s, actions);
    assert Good(After(Boot(clock, offsets), s, actions), s, i);
  }

  // ---------------------------------------------------------------------------------------
  // Longer steps can
  // ---------------------------------------------------------------------------------------

  lemma {:induction false} Then(w: World, s: Settings, a: Action, w': World, rest: seq<Action>)
    requires |w.replicas| == |w.offsets| && s.lease > 0 && Enabled(w, a) && Next(w, s, a) == w'
    requires IsRun(w', s, rest)
    ensures IsRun(w, s, [a] + rest) && After(w, s, [a] + rest) == After(w', s, rest)
  {
    assert ([a] + rest)[1..] == rest;
  }

  /** Two replicas whose clocks agree with the database's. */
  function Pair(clock: int, row: Option<Row>, first: Replica, second: Replica): World {
    World(clock, row, [first, second], [0, 0])
  }

  function Ready(clock: int): Replica {
    STOPPED.(running := true, wakeAt := clock, phase := Idle)
  }

  /** A replica that became leader by a step begun at `now`. */
  function Leader(now: int, phase: Phase): Replica {
    Ready(now).(leader := true, lastRenewAt := now, phase := phase)
  }

  /** A replica starts on its own and wins the free or expired lease. */
  lemma FirstWins(s: Settings, clock: int, rest: seq<Action>) returns (actions: seq<Action>)
    requires s.lease > 0
    requires IsRun(Pair(clock, Some(Row(0, clock, clock + s.lease)), Leader(clock, Beating(clock)), STOPPED), s, rest)
    ensures IsRun(Boot(clock, [0, 0]), s, actions)
    ensures After(Boot(clock, [0, 0]), s, actions)
         == After(Pair(clock, Some(Row(0, clock, clock + s.lease)), Leader(clock, Beating(clock)), STOPPED), s, rest)
  {
    var row := Some(Row(0, clock, clock + s.lease));
    var boot := Pair(clock, None, STOPPED, STOPPED);
    assert Boot(clock, [0, 0]) == boot;
    var w1 := Pair(clock, None, Ready(clock), STOPPED);
    var w2 := Pair(clock, None, Ready(clock).(phase := Acquiring(clock)), STOPPED);
    var w3 := Pair(clock, row, Ready(clock).(phase := Acquired(clock, true)), STOPPED);
    Then(w3, s, Return(0), Pair(clock, row, Leader(clock, Beating(clock)), STOPPED), rest);
    actions := [Return(0)] + rest;
    Then(w2, s, Execute(0, clock), w3, actions); actions := [Execute(0, clock)] + actions;
    Then(w1, s, Begin(0), w2, actions); actions := [Begin(0)] + actions;
    Then(boot, s, Restart(0), w1, actions); actions := [Restart(0)] + actions;
  }

  function SecondTicking(clock: int): Replica {
    Leader(clock, Ticking(clock)).(lastTickAt := clock)
  }

  /** The other takes over a lease that has run out and starts its tick. */
  lemma SecondWins(s: Settings, clock: int, row: Row, first: Replica, rest: seq<Action>) returns (actions: seq<Action>)
    requires s.lease > 0 && clock >= s.tick && row.holder == 0 && row.expiresAt < clock
    requires IsRun(Pair(clock, Some(Row(1, clock, clock + s.lease)), first, SecondTicking(clock)), s, rest)
    ensures IsRun(Pair(clock, Some(row), first, STOPPED), s, actions)
    ensures After(Pair(clock, Some(row), first, STOPPED), s, actions)
         == After(Pair(clock, Some(Row(1, clock, clock + s.lease)), first, SecondTicking(clock)), s, rest)
  {
    var taken := Some(Row(1, clock, clock + s.lease));
    var w0 := Pair(clock, Some(row), first, STOPPED);
    var w1 := Pair(clock, Some(row), first, Ready(clock));
    var w2 := Pair(clock, Some(row), first, Ready(clock).(phase := Acquiring(clock)));
    var w3 := Pair(clock, taken, first, Ready(clock).(phase := Acquired(clock, true)));
    var w4 := Pair(clock, taken, first, Leader(clock, Beating(clock)));
    Then(w4, s, Beat(1), Pair(clock, taken, first, SecondTicking(clock)), rest); actions := [Beat(1)] + rest;
    Then(w3, s, Return(1), w4, actions); actions := [Return(1)] + actions;
    Then(w2, s, Execute(1, clock), w3, actions); actions := [Execute(1, clock)] + actions;
    Then(w1, s, Begin(1), w2, actions); actions := [Begin(1)] + actions;
    Then(w0, s, Restart(1), w1, actions); actions := [Restart(1)] + actions;
  }

  /** The first replica at the start of the step that will last too long. With slack it is its second
      step, read as late as possible without a renewal. */
  function LongStep(s: Settings, clock: int): Replica
    requires s.lease > 0
  {
    if Slack(s) == 0 then Leader(clock, Beating(clock))
    else Leader(clock, Beating(clock + Slack(s))).(lastTickAt := clock, wakeAt := clock + s.tick)
  }

  lemma ToLongStep(s: Settings, clock: int, rest: seq<Action>) returns (actions: seq<Action>)
    requires s.lease > 0 && clock >= s.tick
    requires IsRun(Pair(clock + Slack(s), Some(Row(0, clock, clock + s.lease)), LongStep(s, clock), STOPPED), s, rest)
    ensures IsRun(Boot(clock, [0, 0]), s, actions)
    ensures After(Boot(clock, [0, 0]), s, actions)
         == After(Pair(clock + Slack(s), Some(Row(0, clock, clock + s.lease)), LongStep(s, clock), STOPPED), s, rest)
  {
    var row := Some(Row(0, clock, clock + s.lease));
    actions := rest;
    if Slack(s) != 0 {
      var ticked := Leader(clock, Ticking(clock)).(lastTickAt := clock);
      var rested := ticked.(phase := Idle, wakeAt := clock + s.tick);
      var w1 := Pair(clock, row, Leader(clock, Beating(clock)), STOPPED);
      var w2 := Pair(clock, row, ticked, STOPPED);
      var w3 := Pair(clock, row, rested, STOPPED);
      var w4 := Pair(clock + Slack(s), row, rested, STOPPED);
      Then(w4, s, Begin(0), Pair(clock + Slack(s), row, LongStep(s, clock), STOPPED), actions); actions := [Begin(0)] + actions;
      Then(w3, s, Elapse(Slack(s)), w4, actions); actions := [Elapse(Slack(s))] + actions;
      Then(w2, s, TickDone(0), w3, actions); actions := [TickDone(0)] + actions;
      Then(w1, s, Beat(0), w2, actions); actions := [Beat(0)] + actions;
    }
    actions := FirstWins(s, clock, actions);
  }

  /** Both replicas are ticking, the first for one millisecond longer than the bound. */
  ghost predicate Overlapping(w: World, s: Settings)
    requires s.lease > 0
  {
    && |w.replicas| == |w.offsets| == 2
    && TicksWithin(w, 0, Patience(s) + 1) && TicksWithin(w, 1, 0)
  }

  /** The first replica's tick outlasts its lease. */
  lemma SlowTickOverlaps(s: Settings, clock: int) returns (actions: seq<Action>)
    requires s.lease > 0 && clock >= s.tick
    ensures IsRun(Boot(clock, [0, 0]), s, actions) && Overlapping(After(Boot(clock, [0, 0]), s, actions), s)
  {
    var row := Row(0, clock, clock + s.lease);
    var start, late := clock + Slack(s), clock + s.lease + 1;
    var beating := LongStep(s, clock);
    var ticking := beating.(lastTickAt := start, phase := Ticking(start));
    actions := SecondWins(s, late, row, ticking, []);
    Then(Pair(start, Some(row), ticking, STOPPED), s, Elapse(late - start), Pair(late, Some(row), ticking, STOPPED), actions);
    actions := [Elapse(late - start)] + actions;
    Then(Pair(start, Some(row), beating, STOPPED), s, Beat(0), Pair(start, Some(row), ticking, STOPPED), actions);
    actions := ToLongStep(s, clock, [Beat(0)] + actions);
  }

  /** The first replica's heartbeat does, and its tick starts while the other holds the lease. */
  lemma SlowHeartbeatOverlaps(s: Settings, clock: int) returns (actions: seq<Action>)
    requires s.lease > 0 && clock >= s.tick
    ensures IsRun(Boot(clock, [0, 0]), s, actions) && Overlapping(After(Boot(clock, [0, 0]), s, actions), s)
    ensures var w := After(Boot(clock, [0, 0]), s, actions);
            |w.replicas| == 2 && w.replicas[0].lastTickAt == w.clock && Holds(w, 1)
  {
    var row := Row(0, clock, clock + s.lease);
    var start, late := clock + Slack(s), clock + s.lease + 1;
    var beating := LongStep(s, clock);
    var ticking := beating.(lastTickAt := late, phase := Ticking(start));
    var taken := Some(Row(1, late, late + s.lease));
    Then(Pair(late, taken, beating, SecondTicking(late)), s, Beat(0), Pair(late, taken, ticking, SecondTicking(late)), []);
    assert [Beat(0)] + [] == [Beat(0)];
    actions := SecondWins(s, late, row, beating, [Beat(0)]);
    Then(Pair(start, Some(row), beating, STOPPED), s, Elapse(late - start), Pair(late, Some(row), beating, STOPPED), actions);
    actions := ToLongStep(s, clock, [Elapse(late - start)] + actions);
  }

  // ---------------------------------------------------------------------------------------
  // The exact bound
  // ---------------------------------------------------------------------------------------

  /** In no run are two replicas inside ticks that have lasted, heartbeat included, up to `bound`. */
  ghost predicate NeverTwo(s: Settings, bound: int)
    requires s.lease > 0
  {
    forall clock, offsets, actions, i, j ::
      (&& IsRun(Boot(clock, offsets), s, actions)
       && TicksWithin(After(Boot(clock, offsets), s, actions), i, bound)
       && TicksWithin(After(Boot(clock, offsets), s, actions), j, bound)) ==> i == j
  }

  /** With any settings, two replicas never tick at once as long as no step takes longer than the
      bound; and the bound is exact: with a longer one, by however little, they can. */
  lemma OverlapBoundExactly(s: Settings, bound: int)
    requires s.lease > 0
    ensures NeverTwo(s, bound) <==> bound <= Patience(s)
  {
    if bound <= Patience(s) {
      forall clock, offsets, actions, i, j |
        IsRun(Boot(clock, offsets), s, actions)
        && TicksWithin(After(Boot(clock, offsets), s, actions), i, bound)
        && TicksWithin(After(Boot(clock, offsets), s, actions), j, bound)
        ensures i == j
      {
        ShortStepsDoNotOverlap(clock, offsets, s, actions, i, j);
      }
    } else {
      var actions := SlowTickOverlaps(s, s.tick);
      var w := After(Boot(s.tick, [0, 0]), s, actions);
      assert TicksWithin(w, 0, bound) && TicksWithin(w, 1, bound);
    }
  }

  /** With the default intervals every step of a leader renews first, and may take a whole lease. */
  lemma DefaultPatience()
    ensures Patience(DEFAULTS) == DEFAULTS.lease
  {
  }
}
