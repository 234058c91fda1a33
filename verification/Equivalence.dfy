/**
  The two consumption modes are one act recorded two ways: two runs that see the same requests,
  in whatever modes and with whatever migrations on either side, cannot be told apart.
 */
module Equivalence {
  import opened Stock
  import opened Allocation
  import opened Ledger
  import opened Reservations
  import opened InventoryInvariant
  import opened InventoryRuns

  /** Same reservations but for how they are recorded, and the same free units at every key. */
  ghost predicate Similar(a: State, b: State) {
    && |a.reservations| == |b.reservations|
    && (forall i :: 0 <= i < |a.reservations| ==> SameButRecording(a.reservations[i], b.reservations[i]))
    && a.balances.Keys == b.balances.Keys
    && (forall k :: Free(a.balances, k) == Free(b.balances, k))
  }

  /** What a caller learns from a reply, leaving out ledger ids, on-hand figures, the mode, and
      which of the two reasons a posting was refused for. */
  datatype Sight =
    | SawReservation(recordedNow: bool, id: nat, status: Status, quantity: int, supplied: int, shortage: int,
                     splitBlocked: bool, takes: seq<Take>)
    | SawDone
    | SawRestored(units: int)
    | SawNoChange
    | SawMissing
    | SawResolved(as_: Status)
    | SawRefusal

  function SightOf(reply: Reply): Sight {
    match reply
    case Recorded(v) => SawReservation(true, v.reservationId, v.status, v.quantity, v.supplied, v.shortage, v.splitBlocked, v.takes)
    case AlreadyRecorded(v) => SawReservation(false, v.reservationId, v.status, v.quantity, v.supplied, v.shortage, v.splitBlocked, v.takes)
    case Fulfilled => SawDone
    case ReleasedUnits(n) => SawRestored(n)
    case Adjusted(_, _) => SawDone
    case Unchanged(_) => SawNoChange
    case Transferred(_) => SawDone
    case NotFound => SawMissing
    case AlreadyResolved(status) => SawResolved(status)
    case Migrated => SawDone
    case NotMigrated => SawNoChange
    case Reversed(_, _) => SawDone
    case AlreadyReversed(_) => SawNoChange
    case Short(_) => SawRefusal
    case Refused(_) => SawRefusal
    case Threw(_) => SawRefusal
  }

  /** Switching the mode and migrating reservations: free to happen on one side only. */
  predicate Internal(op: Op) {
    op.Migrate? || op.SetMode?
  }

  /** Requests both runs are given. Absolute counts and reversals of single ledger entries speak
      about the recording itself and are not among them. */
  predicate Comparable(op: Op) {
    || Internal(op) || op.Reserve? || op.Fulfill? || op.Release? || op.Transfer?
    || (op.Adjust? && op.change.Delta?)
  }

  /** Two transactions look alike to their callers and leave inventories that are. */
  ghost predicate Alike(ta: Transition, tb: Transition) {
    SightOf(ta.reply) == SightOf(tb.reply) && Similar(ta.next, tb.next)
  }

  // ---------------------------------------------------------------------------------------
  // One step
  // ---------------------------------------------------------------------------------------

  lemma InternalIsInvisible(a: State, b: State, op: Op)
    requires Inv(a) && Similar(a, b) && Internal(op)
    ensures Similar(Step(a, op).next, b)
  {
    if op.Migrate? {
      MigrateConserves(a, op.id, op.to);
    }
  }

  lemma SimilarIsSymmetric(a: State, b: State)
    requires Similar(a, b)
    ensures Similar(b, a)
  {
    forall i | 0 <= i < |b.reservations| ensures SameButRecording(b.reservations[i], a.reservations[i]) {
      assert SameButRecording(a.reservations[i], b.reservations[i]);
    }
  }

  lemma {:induction false} FindLineSimilar(a: seq<Reservation>, b: seq<Reservation>, line: nat)
    requires |a| == |b| && forall i :: 0 <= i < |a| ==> a[i].line == b[i].line
    ensures FindLine(a, line) == FindLine(b, line)
  {
    if a != [] {
      FindLineSimilar(a[..|a| - 1], b[..|b| - 1], line);
    }
  }

  lemma AvailableSimilar(a: State, b: State, r: Request, components: seq<Component>)
    requires Similar(a, b)
    ensures AvailableIn(a.balances, r.safety, components, r.order) == AvailableIn(b.balances, r.safety, components, r.order)
  {
    forall k | k in a.balances
      ensures a.balances[k].onHand - a.balances[k].reserved == b.balances[k].onHand - b.balances[k].reserved
    {
      assert Free(a.balances, k) == Free(b.balances, k);
    }
  }

  lemma AppendedSimilar(a: State, b: State, r: Request, plan: Plan, ta: Transition, tb: Transition)
    requires Similar(a, b) && RecordedAs(a, r, plan, ta) && RecordedAs(b, r, plan, tb)
    ensures Similar(ta.next, tb.next) && SightOf(ta.reply) == SightOf(tb.reply)
  {
    forall i | 0 <= i < |ta.next.reservations| ensures SameButRecording(ta.next.reservations[i], tb.next.reservations[i]) {
      if i < |a.reservations| {
        assert ta.next.reservations[i] == a.reservations[i] && tb.next.reservations[i] == b.reservations[i];
      }
    }
    forall k ensures Free(ta.next.balances, k) == Free(tb.next.balances, k) {
      assert Free(a.balances, k) == Free(b.balances, k);
    }
  }

  /** Everything a new line's outcome depends on is the same on both sides. */
  lemma PlannedSimilar(a: State, b: State, r: Request, components: seq<Component>, plan: Plan)
    requires Inv(a) && Inv(b) && Similar(a, b) && ValidRequest(r) && r.quantity >= 1
    requires FindLine(a.reservations, r.line).None? && FindLine(b.reservations, r.line).None? && r.expansion == Some(components)
    requires PlanAllocationOf(r.quantity, components, AvailableIn(a.balances, r.safety, components, r.order), r.order, r.split) == Ok(plan)
    ensures Similar(RecordStep(a, r, plan).next, RecordStep(b, r, plan).next)
    ensures SightOf(RecordStep(a, r, plan).reply) == SightOf(RecordStep(b, r, plan).reply)
  {
    AvailableSimilar(a, b, r, components);
    RecordKeeps(a, r, components, plan);
    RecordKeeps(b, r, components, plan);
    AppendedSimilar(a, b, r, plan, RecordStep(a, r, plan), RecordStep(b, r, plan));
  }

  /** A line that gets as far as a plan is recorded by it. */
  lemma PlannedIs(s: State, r: Request, components: seq<Component>, plan: Plan)
    requires r.quantity >= 1 && FindLine(s.reservations, r.line).None? && r.expansion == Some(components)
    requires PlanAllocationOf(r.quantity, components, AvailableIn(s.balances, r.safety, components, r.order), r.order, r.split) == Ok(plan)
    ensures ReserveStep(s, r) == RecordStep(s, r, plan)
  {
  }

  /** Any other line changes nothing, and is answered from what the two inventories share. */
  lemma UnplannedSimilar(a: State, b: State, r: Request)
    requires Similar(a, b) && FindLine(a.reservations, r.line) == FindLine(b.reservations, r.line)
    requires r.quantity < 1 || FindLine(a.reservations, r.line).Some? || r.expansion.None?
    ensures ReserveStep(a, r).next == a && ReserveStep(b, r).next == b
    ensures SightOf(ReserveStep(a, r).reply) == SightOf(ReserveStep(b, r).reply)
  {
    var found := FindLine(a.reservations, r.line);
    if found.Some? {
      assert SameButRecording(a.reservations[found.value], b.reservations[found.value]);
    }
  }

  lemma UnplannableSimilar(a: State, b: State, r: Request, components: seq<Component>, error: string)
    requires r.quantity >= 1 && r.expansion == Some(components)
    requires FindLine(a.reservations, r.line).None? && FindLine(b.reservations, r.line).None?
    requires PlanAllocationOf(r.quantity, components, AvailableIn(a.balances, r.safety, components, r.order), r.order, r.split) == Err(error)
    requires PlanAllocationOf(r.quantity, components, AvailableIn(b.balances, r.safety, components, r.order), r.order, r.split) == Err(error)
    ensures ReserveStep(a, r) == Transition(a, Threw(error)) && ReserveStep(b, r) == Transition(b, Threw(error))
  {
  }

  lemma ReserveSimilar(a: State, b: State, r: Request)
    requires Inv(a) && Inv(b) && Similar(a, b) && ValidRequest(r)
    ensures Similar(ReserveStep(a, r).next, ReserveStep(b, r).next)
    ensures SightOf(ReserveStep(a, r).reply) == SightOf(ReserveStep(b, r).reply)
  {
    FindLineSimilar(a.reservations, b.reservations, r.line);
    if r.quantity < 1 || FindLine(a.reservations, r.line).Some? || r.expansion.None? {
      UnplannedSimilar(a, b, r);
    } else {
      var components := r.expansion.value;
      AvailableSimilar(a, b, r, components);
      match PlanAllocationOf(r.quantity, components, AvailableIn(a.balances, r.safety, components, r.order), r.order, r.split)
      case Ok(plan) =>
        PlannedIs(a, r, components, plan);
        PlannedIs(b, r, components, plan);
        PlannedSimilar(a, b, r, components, plan);
      case Err(error) =>
        UnplannableSimilar(a, b, r, components, error);
    }
  }

  lemma ReleaseSimilar(a: State, b: State, id: nat, explained: bool)
    requires Inv(a) && Inv(b) && Similar(a, b)
    ensures Similar(ReleaseStep(a, id, explained).next, ReleaseStep(b, id, explained).next)
    ensures SightOf(ReleaseStep(a, id, explained).reply) == SightOf(ReleaseStep(b, id, explained).reply)
  {
    if id < |a.reservations| {
      assert SameButRecording(a.reservations[id], b.reservations[id]);
      if explained && a.reservations[id].status == Open {
        ReleaseRestores(a, id);
        ReleaseRestores(b, id);
      }
    }
  }

  /** What an accepted fulfilment does, but for the balances and the ledger. */
  lemma FulfillShape(s: State, id: nat)
    requires !FulfillStep(s, id).reply.Refused?
    ensures FulfillStep(s, id).next.mode == s.mode
    ensures FulfillStep(s, id).next.reservations
            == if id < |s.reservations| && s.reservations[id].status == Open then Resolved(s, id, Consumed) else s.reservations
    ensures FulfillStep(s, id).reply
            == if id >= |s.reservations| then NotFound
               else if s.reservations[id].status != Open then AlreadyResolved(s.reservations[id].status)
               else Fulfilled
  {
  }

  lemma FulfillSimilar(a: State, b: State, id: nat)
    requires Inv(a) && Inv(b) && Similar(a, b)
    requires !FulfillStep(a, id).reply.Refused? && !FulfillStep(b, id).reply.Refused?
    ensures Similar(FulfillStep(a, id).next, FulfillStep(b, id).next)
    ensures SightOf(FulfillStep(a, id).reply) == SightOf(FulfillStep(b, id).reply)
  {
    FulfillKeeps(a, id);
    FulfillKeeps(b, id);
    FulfillShape(a, id);
    FulfillShape(b, id);
    if id < |a.reservations| {
      assert SameButRecording(a.reservations[id], b.reservations[id]);
    }
  }

  function AfterPosting(s: State, ms: seq<Movement>): State {
    s.(balances := Moved(s.balances, ms), ledger := s.ledger + ms)
  }

  lemma RoomSimilar(a: State, b: State, ms: seq<Movement>)
    requires Similar(a, b)
    ensures HasRoom(a.balances, ms) <==> HasRoom(b.balances, ms)
  {
    forall k ensures Free(a.balances, k) == Free(b.balances, k) {
    }
  }

  /** A posting is accepted on one side exactly when it is accepted on the other. */
  lemma PostingSimilar(a: State, b: State, ms: seq<Movement>)
    requires Inv(a) && Inv(b) && Similar(a, b)
    ensures PostingOf(a.balances, |a.ledger|, ms).Posted? <==> PostingOf(b.balances, |b.ledger|, ms).Posted?
    ensures PostingOf(a.balances, |a.ledger|, ms).Posted? ==> Similar(AfterPosting(a, ms), AfterPosting(b, ms))
  {
    PostedExactly(a.balances, |a.ledger|, ms);
    PostedExactly(b.balances, |b.ledger|, ms);
    RoomSimilar(a, b, ms);
    if PostingOf(a.balances, |a.ledger|, ms).Posted? {
      PostedBalances(a.balances, |a.ledger|, ms);
      PostedBalances(b.balances, |b.ledger|, ms);
      forall k ensures Free(Moved(a.balances, ms), k) == Free(Moved(b.balances, ms), k) {
        assert Free(a.balances, k) == Free(b.balances, k);
      }
    }
  }

  /** A change of stock is a posting, and is seen as done or as refused. */
  lemma AdjustIs(s: State, k: Key, d: int)
    requires d != 0
    ensures var ms := [Movement(k, Adjustment, d, None)];
            var t := AdjustBy(s, k, d);
            && (PostingOf(s.balances, |s.ledger|, ms).Posted? ==> t.next == AfterPosting(s, ms) && SightOf(t.reply) == SawDone)
            && (!PostingOf(s.balances, |s.ledger|, ms).Posted? ==> t.next == s && SightOf(t.reply) == SawRefusal)
  {
  }

  lemma TransferIs(s: State, item: nat, source: nat, destination: nat, quantity: int)
    requires quantity > 0 && source != destination
    ensures var ms := TransferMovements(item, source, destination, quantity);
            var t := TransferStep(s, item, source, destination, quantity);
            && (PostingOf(s.balances, |s.ledger|, ms).Posted? ==> t.next == AfterPosting(s, ms) && SightOf(t.reply) == SawDone)
            && (!PostingOf(s.balances, |s.ledger|, ms).Posted? ==> t.next == s && SightOf(t.reply) == SawRefusal)
  {
  }

  lemma AdjustBySimilar(a: State, b: State, k: Key, d: int)
    requires Inv(a) && Inv(b) && Similar(a, b)
    ensures Alike(AdjustBy(a, k, d), AdjustBy(b, k, d))
  {
    if d != 0 {
      AdjustIs(a, k, d);
      AdjustIs(b, k, d);
      PostingSimilar(a, b, [Movement(k, Adjustment, d, None)]);
    }
  }

  lemma AdjustSimilar(a: State, b: State, k: Key, d: int, explained: bool)
    requires Inv(a) && Inv(b) && Similar(a, b)
    ensures Alike(AdjustStep(a, k, Delta(d), explained), AdjustStep(b, k, Delta(d), explained))
  {
    if explained {
      AdjustBySimilar(a, b, k, d);
    }
  }

  lemma TransferSimilar(a: State, b: State, item: nat, source: nat, destination: nat, quantity: int)
    requires Inv(a) && Inv(b) && Similar(a, b)
    ensures Similar(TransferStep(a, item, source, destination, quantity).next, TransferStep(b, item, source, destination, quantity).next)
    ensures SightOf(TransferStep(a, item, source, destination, quantity).reply)
         == SightOf(TransferStep(b, item, source, destination, quantity).reply)
  {
    if quantity > 0 && source != destination {
      TransferIs(a, item, source, destination, quantity);
      TransferIs(b, item, source, destination, quantity);
      PostingSimilar(a, b, TransferMovements(item, source, destination, quantity));
    }
  }

  /** What can be checked before an order is shipped: if it is recorded as reserved, the units nobody
      has reserved cover it at every key it is allocated. */
  ghost predicate Shippable(s: State, id: nat) {
    id < |s.reservations| && Holds(s.reservations[id]) ==> Fits(s.balances, s.reservations[id].takes)
  }

  /** That is exactly when the fulfilment is not refused. */
  lemma ShippableExactly(s: State, id: nat)
    requires Inv(s)
    ensures Shippable(s, id) <==> !FulfillStep(s, id).reply.Refused?
  {
    if id < |s.reservations| && Holds(s.reservations[id]) {
      FulfilledExactly(s, id);
    }
  }

  lemma StepSimilar(a: State, b: State, op: Op)
    requires Inv(a) && Inv(b) && Similar(a, b) && ValidOp(op) && Comparable(op) && !Internal(op)
    requires op.Fulfill? ==> Shippable(a, op.id) && Shippable(b, op.id)
    ensures Similar(Step(a, op).next, Step(b, op).next)
    ensures SightOf(Step(a, op).reply) == SightOf(Step(b, op).reply)
  {
    match op
    case Reserve(r) => ReserveSimilar(a, b, r);
    case Fulfill(id) =>
      ShippableExactly(a, id);
      ShippableExactly(b, id);
      FulfillSimilar(a, b, id);
    case Release(id, explained) => ReleaseSimilar(a, b, id, explained);
    case Adjust(k, change, explained) => AdjustSimilar(a, b, k, change.quantityDelta, explained);
    case Transfer(item, source, destination, quantity) => TransferSimilar(a, b, item, source, destination, quantity);
  }

  // ---------------------------------------------------------------------------------------
  // Whole runs
  // ---------------------------------------------------------------------------------------

  /** The requests of a run, without what happens inside. */
  function Visible(ops: seq<Op>): seq<Op> {
    if ops == [] then []
    else (if Internal(ops[0]) then [] else [ops[0]]) + Visible(ops[1..])
  }

  /** What the callers of a run see, in order. */
  ghost function Sights(s: State, ops: seq<Op>): seq<Sight>
    requires Inv(s) && ValidRun(ops)
    decreases ops
  {
    if ops == [] then []
    else
      StepKeeps(s, ops[0]);
      (if Internal(ops[0]) then [] else [SightOf(Step(s, ops[0]).reply)]) + Sights(Step(s, ops[0]).next, ops[1..])
  }

  /** Every order of the run is shipped when the units nobody has reserved cover it. */
  ghost predicate Smooth(s: State, ops: seq<Op>)
    requires Inv(s) && ValidRun(ops)
    decreases ops
  {
    ops == []
    || (StepKeeps(s, ops[0]);
        (ops[0].Fulfill? ==> Shippable(s, ops[0].id)) && Smooth(Step(s, ops[0]).next, ops[1..]))
  }

  ghost predicate ComparableRun(ops: seq<Op>) {
    ValidRun(ops) && forall i :: 0 <= i < |ops| ==> Comparable(ops[i])
  }

  /**
    Give two inventories the same requests. Let either start in either mode, switch modes and
    migrate reservations whenever it likes. As long as orders are shipped only when the units nobody
    reserved cover them, every caller sees the same thing on both sides, every order gets the same
    plan, and afterwards the same units are free at every key.
   */
  lemma {:induction false} ModesAreInterchangeable(a: State, opsA: seq<Op>, b: State, opsB: seq<Op>)
    requires Inv(a) && Inv(b) && Similar(a, b)
    requires ComparableRun(opsA) && ComparableRun(opsB) && Visible(opsA) == Visible(opsB)
    requires Smooth(a, opsA) && Smooth(b, opsB)
    ensures Similar(Run(a, opsA), Run(b, opsB))
    ensures Sights(a, opsA) == Sights(b, opsB)
    decreases |opsA| + |opsB|
  {
    if opsA != [] && Internal(opsA[0]) {
      var next := InternalHead(a, opsA, b);
      ModesAreInterchangeable(next, opsA[1..], b, opsB);
    } else if opsB != [] && Internal(opsB[0]) {
      SimilarIsSymmetric(a, b);
      var next := InternalHead(b, opsB, a);
      SimilarIsSymmetric(next, a);
      ModesAreInterchangeable(a, opsA, next, opsB[1..]);
    } else if opsA != [] {
      SameHead(opsA, opsB);
      var nextA, nextB, sight := CommonHead(a, opsA, b, opsB);
      ModesAreInterchangeable(nextA, opsA[1..], nextB, opsB[1..]);
    }
  }

  /** What happens inside on one side first: nothing is seen of it. */
  lemma InternalHead(a: State, ops: seq<Op>, b: State) returns (next: State)
    requires Inv(a) && Similar(a, b) && ops != [] && ComparableRun(ops) && Smooth(a, ops) && Internal(ops[0])
    ensures Inv(next) && Similar(next, b) && ComparableRun(ops[1..]) && Smooth(next, ops[1..])
    ensures Run(a, ops) == Run(next, ops[1..]) && Sights(a, ops) == Sights(next, ops[1..])
    ensures Visible(ops) == Visible(ops[1..])
  {
    StepKeeps(a, ops[0]);
    InternalIsInvisible(a, b, ops[0]);
    next := Step(a, ops[0]).next;
  }

  /** The same request on both sides: both are told the same. */
  lemma CommonHead(a: State, opsA: seq<Op>, b: State, opsB: seq<Op>) returns (nextA: State, nextB: State, sight: Sight)
    requires Inv(a) && Inv(b) && Similar(a, b) && opsA != [] && opsB != [] && opsA[0] == opsB[0] && !Internal(opsA[0])
    requires ComparableRun(opsA) && Smooth(a, opsA) && ComparableRun(opsB) && Smooth(b, opsB)
    ensures Inv(nextA) && Inv(nextB) && Similar(nextA, nextB)
    ensures ComparableRun(opsA[1..]) && Smooth(nextA, opsA[1..]) && ComparableRun(opsB[1..]) && Smooth(nextB, opsB[1..])
    ensures Run(a, opsA) == Run(nextA, opsA[1..]) && Run(b, opsB) == Run(nextB, opsB[1..])
    ensures Sights(a, opsA) == [sight] + Sights(nextA, opsA[1..]) && Sights(b, opsB) == [sight] + Sights(nextB, opsB[1..])
  {
    StepKeeps(a, opsA[0]);
    StepKeeps(b, opsA[0]);
    StepSimilar(a, b, opsA[0]);
    nextA, nextB := Step(a, opsA[0]).next, Step(b, opsB[0]).next;
    sight := SightOf(Step(a, opsA[0]).reply);
  }

  lemma SameHead(opsA: seq<Op>, opsB: seq<Op>)
    requires opsA != [] && !Internal(opsA[0]) && Visible(opsA) == Visible(opsB)
    requires opsB != [] ==> !Internal(opsB[0])
    ensures opsB != [] && opsA[0] == opsB[0] && Visible(opsA[1..]) == Visible(opsB[1..])
  {
    assert Visible(opsA)[0] == opsA[0] && Visible(opsA)[1..] == Visible(opsA[1..]);
    if opsB != [] {
      assert Visible(opsB)[0] == opsB[0] && Visible(opsB)[1..] == Visible(opsB[1..]);
    }
  }

  /** In particular two new businesses that start in different modes, over any two runs from nothing
      with the same requests. */
  lemma NewBusinessesAreInterchangeable(opsA: seq<Op>, opsB: seq<Op>)
    requires ComparableRun(opsA) && ComparableRun(opsB) && Visible(opsA) == Visible(opsB)
    ensures Inv(EMPTY) && Inv(EMPTY.(mode := ConsumeImmediately))
    ensures Smooth(EMPTY, opsA) && Smooth(EMPTY.(mode := ConsumeImmediately), opsB) ==>
              && Similar(Run(EMPTY, opsA), Run(EMPTY.(mode := ConsumeImmediately), opsB))
              && Sights(EMPTY, opsA) == Sights(EMPTY.(mode := ConsumeImmediately), opsB)
  {
    var consuming := EMPTY.(mode := ConsumeImmediately);
    if Smooth(EMPTY, opsA) && Smooth(consuming, opsB) {
      ModesAreInterchangeable(EMPTY, opsA, consuming, opsB);
    }
  }

  // ---------------------------------------------------------------------------------------
  // Where the modes do differ
  // ---------------------------------------------------------------------------------------

  const SHELF := Key(1, 1)

  /** Five received and an order for three, recorded each way. */
  const RESERVED := State(
    map[SHELF := Balance(5, 3)], [Movement(SHELF, Adjustment, 5, None)],
    [Reservation(1, 3, ReserveUntilFulfilled, Open, 0, false, [Take(SHELF, 3)], [None])], ReserveUntilFulfilled)

  const CONSUMED := State(
    map[SHELF := Balance(2, 0)], [Movement(SHELF, Adjustment, 5, None), Movement(SHELF, Shipment, -3, None)],
    [Reservation(1, 3, ConsumeImmediately, Open, 0, false, [Take(SHELF, 3)], [Some(1)])], ConsumeImmediately)

  lemma BothRecordings()
    ensures Inv(RESERVED) && Inv(CONSUMED) && Similar(RESERVED, CONSUMED)
  {
    var take := [Take(SHELF, 3)];
    assert forall k :: QtyAt(take, k) == if k == SHELF then 3 else 0 by {
      assert take[..0] == [];
    }
    forall k ensures At(RESERVED.balances, k) == Balance(NetAt(RESERVED.ledger, k), ReservedBy(RESERVED.reservations, k)) {
      assert RESERVED.ledger[..0] == [] && RESERVED.reservations[..0] == [];
    }
    forall k ensures At(CONSUMED.balances, k) == Balance(NetAt(CONSUMED.ledger, k), ReservedBy(CONSUMED.reservations, k)) {
      assert CONSUMED.ledger[..1][..0] == [] && CONSUMED.reservations[..0] == [];
      assert CONSUMED.ledger[..1] == [Movement(SHELF, Adjustment, 5, None)];
    }
  }

  /** A confirmed switch says that it switched, and leaves the order where it was: its three units do
      not fit beside themselves. */
  lemma SwitchLeavesBehind()
    ensures Inv(RESERVED)
    ensures var t := SwitchStep(RESERVED, ConsumeImmediately, true, [0]);
            && t.outcome == Switched && t.next.mode == ConsumeImmediately
            && t.next.reservations == RESERVED.reservations
  {
    BothRecordings();
    var take := RESERVED.reservations[0].takes[0];
    assert Free(RESERVED.balances, take.key) == 2 < take.quantity;
    SwitchMigratesExactly(RESERVED, [0], ConsumeImmediately, 0);
    MigrateConserves(RESERVED, 0, ConsumeImmediately);
  }

  /** The same order can be shipped under one recording and not under the other: the units are
      there and reserved for it, but shipping them before releasing them is refused. */
  lemma FulfilmentTellsModesApart()
    ensures Inv(RESERVED) && Inv(CONSUMED) && Similar(RESERVED, CONSUMED)
    ensures FulfillStep(RESERVED, 0) == Transition(RESERVED, Refused(BELOW_RESERVED))
    ensures FulfillStep(CONSUMED, 0).reply == Fulfilled
  {
    BothRecordings();
    assert Holds(RESERVED.reservations[0]);
    FulfilledExactly(RESERVED, 0);
    assert Free(RESERVED.balances, RESERVED.reservations[0].takes[0].key) == 2;
  }

  /** What counting a shelf does: it is accepted when the count covers what is reserved there, and
      then leaves the rest of it free. */
  ghost predicate Counted(s: State, k: Key, count: int, t: Transition) {
    && (SightOf(t.reply) != SawRefusal <==> count >= At(s.balances, k).reserved)
    && (SightOf(t.reply) == SawRefusal ==> t.next == s)
    && (SightOf(t.reply) != SawRefusal ==> Free(t.next.balances, k) == count - At(s.balances, k).reserved)
  }

  lemma CountIs(s: State, k: Key, count: int, d: int)
    requires Inv(s) && count >= 0 && d == count - At(s.balances, k).onHand
    ensures Counted(s, k, count, AdjustBy(s, k, d))
  {
    OneMovement(s.balances, |s.ledger|, Movement(k, Adjustment, d, None));
    if d != 0 {
      AdjustIs(s, k, d);
    }
  }

  lemma CountsCompare(a: State, b: State, k: Key, count: int, da: int, db: int, ta: Transition, tb: Transition)
    requires Similar(a, b) && Counted(a, k, count, ta) && Counted(b, k, count, tb)
    requires da == count - At(a.balances, k).onHand && db == count - At(b.balances, k).onHand
    requires da == db ==> Alike(ta, tb)
    ensures var ra, rb := At(a.balances, k).reserved, At(b.balances, k).reserved;
            Alike(ta, tb) <==> ra == rb || (count < ra && count < rb)
  {
    assert Free(a.balances, k) == Free(b.balances, k);
    if Alike(ta, tb) {
      assert Free(ta.next.balances, k) == Free(tb.next.balances, k);
    }
  }

  /** An absolute count is seen alike under two recordings, and leaves them alike, if and only if as
      many units are reserved at the key in both, or the count is below what is reserved in both. */
  lemma AbsoluteCountsAgreeExactly(a: State, b: State, k: Key, count: int)
    requires Inv(a) && Inv(b) && Similar(a, b) && count >= 0
    ensures var ra, rb := At(a.balances, k).reserved, At(b.balances, k).reserved;
            Alike(AdjustStep(a, k, Absolute(count), true), AdjustStep(b, k, Absolute(count), true))
            <==> ra == rb || (count < ra && count < rb)
  {
    var da, db := count - At(a.balances, k).onHand, count - At(b.balances, k).onHand;
    CountIs(a, k, count, da);
    CountIs(b, k, count, db);
    CountAsChange(a, k, count, da);
    CountAsChange(b, k, count, db);
    SameChangeAlike(a, b, k, da, db);
    CountsCompare(a, b, k, count, da, db, AdjustBy(a, k, da), AdjustBy(b, k, db));
  }

  lemma CountAsChange(s: State, k: Key, count: int, d: int)
    requires count >= 0 && d == count - At(s.balances, k).onHand
    ensures AdjustStep(s, k, Absolute(count), true) == AdjustBy(s, k, d)
  {
  }

  lemma SameChangeAlike(a: State, b: State, k: Key, da: int, db: int)
    requires Inv(a) && Inv(b) && Similar(a, b)
    ensures da == db ==> Alike(AdjustBy(a, k, da), AdjustBy(b, k, db))
  {
    AdjustBySimilar(a, b, k, da);
  }

  /** Counting the shelf means different things: five on hand is no change in one recording and
      three more units in the other. */
  lemma AbsoluteCountsTellModesApart()
    ensures Inv(RESERVED) && Inv(CONSUMED) && Similar(RESERVED, CONSUMED)
    ensures AdjustStep(RESERVED, SHELF, Absolute(5), true) == Transition(RESERVED, Unchanged(5))
    ensures AdjustStep(CONSUMED, SHELF, Absolute(5), true).reply == Adjusted(2, 5)
    ensures Free(AdjustStep(CONSUMED, SHELF, Absolute(5), true).next.balances, SHELF) == Free(RESERVED.balances, SHELF) + 3
  {
    BothRecordings();
    var ms := [Movement(SHELF, Adjustment, 3, None)];
    assert NetAt(ms, SHELF) == 3 by { assert ms[..0] == []; }
    assert forall m :: m in ms ==> FaultIn(m).None?;
    PostedExactly(CONSUMED.balances, 2, ms);
    PostedBalances(CONSUMED.balances, 2, ms);
  }
}
