/**
  Every inventory transaction keeps the run invariant, and what follows for whole runs:
  conservation across migrations, exact restoration on release, and an append-only ledger.
 */
module InventoryRuns {
  import opened Stock
  import opened Allocation
  import opened Ledger
  import opened Reservations
  import opened InventoryInvariant

  // ---------------------------------------------------------------------------------------
  // Releasing
  // ---------------------------------------------------------------------------------------

  /** Releasing what was consumed posts a reversal of every take. */
  lemma RestoreConsumed(s: State, id: nat)
    requires Inv(s) && id < |s.reservations| && s.reservations[id].takes != []
    requires s.reservations[id].status == Open && s.reservations[id].mode == ConsumeImmediately
    ensures var r := s.reservations[id];
            var t := ReleaseStep(s, id, true);
            && t.reply == ReleasedUnits(TotalQty(r.takes))
            && Inv(t.next)
            && t.next.balances.Keys == s.balances.Keys
            && t.next.reservations == s.reservations[id := r.(status := Released)]
            && (forall k :: Free(t.next.balances, k) == Free(s.balances, k) + QtyAt(r.takes, k))
  {
    var r := s.reservations[id];
    assert Sound(r, s.balances, s.ledger);
    RestoredBalances(s, id);
    ReversalsAll(r.takes, r.entries);
    RestoredThenReleased(s, id, Moved(s.balances, Reversals(r.takes, r.entries)), Reversals(r.takes, r.entries));
  }

  lemma RestoredThenReleased(s: State, id: nat, moved: Balances, ms: seq<Movement>)
    requires Inv(s) && id < |s.reservations| && s.reservations[id].takes != []
    requires s.reservations[id].status == Open && s.reservations[id].mode == ConsumeImmediately
    requires Checked(moved) && moved.Keys == s.balances.Keys && Linked(s.ledger + ms)
    requires forall k :: NetAt(ms, k) == QtyAt(s.reservations[id].takes, k)
    requires Restocked(s.balances, moved, s.reservations[id].takes)
    ensures Inv(State(moved, s.ledger + ms, Resolved(s, id, Released), s.mode))
  {
    assert Sound(s.reservations[id], s.balances, s.ledger);
    ReassembleOne(s, State(moved, s.ledger + ms, Resolved(s, id, Released), s.mode), ms, id,
                  s.reservations[id].(status := Released));
  }

  /** Releasing an open reservation with a stated reason always succeeds, reports every unit
      restored, and makes exactly its allocated units free again at exactly their keys. */
  lemma ReleaseRestores(s: State, id: nat)
    requires Inv(s) && id < |s.reservations| && s.reservations[id].status == Open
    ensures var r := s.reservations[id];
            var t := ReleaseStep(s, id, true);
            && t.reply == ReleasedUnits(TotalQty(r.takes))
            && Inv(t.next)
            && t.next.balances.Keys == s.balances.Keys
            && t.next.reservations == s.reservations[id := r.(status := Released)]
            && (forall k :: Free(t.next.balances, k) == Free(s.balances, k) + QtyAt(r.takes, k))
  {
    var r := s.reservations[id];
    var next := ReleaseStep(s, id, true).next;
    assert Sound(r, s.balances, s.ledger);
    if r.mode == ConsumeImmediately && r.takes != [] {
      RestoreConsumed(s, id);
    } else if r.mode == ConsumeImmediately {
      assert next.ledger == s.ledger + [];
      ReassembleOne(s, next, [], id, r.(status := Released));
    } else {
      HeldIsReserved(s, id);
      LoweredBalances(s.balances, r.takes);
      assert next.ledger == s.ledger + [];
      ReassembleOne(s, next, [], id, r.(status := Released));
    }
  }

  /** Nothing about this depends on what a row holds: releasing an order whose units were taken out
      refills a row that has been empty since, at a location that may have been deleted for it. */
  lemma ReleaseRefills(s: State, id: nat, k: Key)
    requires Inv(s) && id < |s.reservations| && s.reservations[id].status == Open
    requires s.reservations[id].mode == ConsumeImmediately && At(s.balances, k) == Balance(0, 0)
    ensures At(ReleaseStep(s, id, true).next.balances, k) == Balance(QtyAt(s.reservations[id].takes, k), 0)
  {
    ReleaseRestores(s, id);
  }

  lemma ReleaseKeeps(s: State, id: nat, explained: bool)
    requires Inv(s)
    ensures Inv(ReleaseStep(s, id, explained).next)
  {
    if explained && id < |s.reservations| && s.reservations[id].status == Open {
      ReleaseRestores(s, id);
    }
  }

  // ---------------------------------------------------------------------------------------
  // Migrating
  // ---------------------------------------------------------------------------------------

  /** The reservation that a migration leaves behind. */
  ghost predicate SameButRecording(a: Reservation, b: Reservation) {
    b == a.(mode := b.mode, entries := b.entries)
  }

  /**
    Migrating moves no free units anywhere. Away from consumption it always goes through; towards
    consumption it goes through exactly when the allocation fits beside everything reserved.
   */
  lemma MigrateConserves(s: State, id: nat, to: Mode)
    requires Inv(s)
    ensures var t := MigrateStep(s, id, to);
            && Inv(t.next)
            && t.next.balances.Keys == s.balances.Keys
            && t.next.mode == s.mode
            && (forall k :: Free(t.next.balances, k) == Free(s.balances, k))
            && |t.next.reservations| == |s.reservations|
            && (forall i :: 0 <= i < |s.reservations| && i != id ==> t.next.reservations[i] == s.reservations[i])
            && (id < |s.reservations| ==> SameButRecording(s.reservations[id], t.next.reservations[id]))
            && (t.reply != Migrated ==> t.next == s)
            && (id < |s.reservations| && s.reservations[id].status == Open && s.reservations[id].mode != to ==>
                  && (t.reply == Migrated <==> to == ReserveUntilFulfilled || Fits(s.balances, s.reservations[id].takes))
                  && (t.reply == Migrated ==> t.next.reservations[id].mode == to))
  {
    var next := MigrateStep(s, id, to).next;
    if id < |s.reservations| && s.reservations[id].status == Open && s.reservations[id].mode != to {
      var r := s.reservations[id];
      assert Sound(r, s.balances, s.ledger);
      if r.takes == [] {
        assert next.ledger == s.ledger + [];
        ReassembleOne(s, next, [], id, r.(mode := to));
      } else if to == ConsumeImmediately {
        MigrateToConsumptionIs(s, id);
        if Fits(s.balances, r.takes) {
          MigrateToConsumption(s, id);
        }
      } else {
        MigrateToReservationIs(s, id);
        MigrateToReservation(s, id);
      }
    }
  }

  function NowConsumed(s: State, id: nat): Reservation
    requires id < |s.reservations|
  {
    var r := s.reservations[id];
    r.(mode := ConsumeImmediately, entries := Somes(Ids(|s.ledger|, |r.takes|)))
  }

  function ConsumedState(s: State, id: nat): State
    requires id < |s.reservations|
  {
    var takes := s.reservations[id].takes;
    State(LowerReserved(Moved(s.balances, Shipments(takes)), takes), s.ledger + Shipments(takes),
          s.reservations[id := NowConsumed(s, id)], s.mode)
  }

  function NowReserved(s: State, id: nat): Reservation
    requires id < |s.reservations|
  {
    var r := s.reservations[id];
    r.(mode := ReserveUntilFulfilled, entries := Nones(|r.takes|))
  }

  function RestoredState(s: State, id: nat): State
    requires id < |s.reservations| && |s.reservations[id].takes| == |s.reservations[id].entries|
  {
    var r := s.reservations[id];
    var ms := Reversals(r.takes, r.entries);
    State(RaiseReserved(Moved(s.balances, ms), r.takes), s.ledger + ms, s.reservations[id := NowReserved(s, id)], s.mode)
  }

  lemma MigrateToConsumptionIs(s: State, id: nat)
    requires Inv(s) && id < |s.reservations| && Holds(s.reservations[id]) && s.reservations[id].takes != []
    ensures Fits(s.balances, s.reservations[id].takes) ==>
              MigrateStep(s, id, ConsumeImmediately) == Transition(ConsumedState(s, id), Migrated)
    ensures !Fits(s.balances, s.reservations[id].takes) ==>
              MigrateStep(s, id, ConsumeImmediately) == Transition(s, NotMigrated)
  {
    ShipHeld(s, id);
    assert Sound(s.reservations[id], s.balances, s.ledger);
    ShipmentAccepted(s.balances, |s.ledger|, s.reservations[id].takes);
  }

  lemma MigrateToConsumption(s: State, id: nat)
    requires Inv(s) && id < |s.reservations| && Holds(s.reservations[id]) && s.reservations[id].takes != []
    requires Fits(s.balances, s.reservations[id].takes)
    ensures var next := MigrateStep(s, id, ConsumeImmediately).next;
            && Inv(next)
            && next.balances.Keys == s.balances.Keys
            && (forall k :: Free(next.balances, k) == Free(s.balances, k))
  {
    var takes := s.reservations[id].takes;
    MigrateToConsumptionIs(s, id);
    ShipHeld(s, id);
    ConsumedKeeps(s, id, LowerReserved(Moved(s.balances, Shipments(takes)), takes));
  }

  lemma ConsumedKeeps(s: State, id: nat, b: Balances)
    requires Inv(s) && id < |s.reservations| && Holds(s.reservations[id])
    requires Checked(b) && b.Keys == s.balances.Keys
    requires Emptied(s.balances, b, s.reservations[id].takes)
    requires Linked(s.ledger + Shipments(s.reservations[id].takes))
    ensures Inv(State(b, s.ledger + Shipments(s.reservations[id].takes), s.reservations[id := NowConsumed(s, id)], s.mode))
  {
    var r, made := s.reservations[id], NowConsumed(s, id);
    var ms := Shipments(r.takes);
    forall k ensures NetAt(ms, k) == -QtyAt(r.takes, k) {
      ShipmentsNet(r.takes, k);
    }
    assert Sound(made, b, s.ledger + ms) by {
      assert Sound(r, s.balances, s.ledger);
      TracedByShipments(s.ledger, made);
    }
    ReassembleOne(s, State(b, s.ledger + ms, s.reservations[id := made], s.mode), ms, id, made);
  }

  lemma TracedByShipments(ledger: seq<Movement>, r: Reservation)
    requires r.entries == Somes(Ids(|ledger|, |r.takes|))
    ensures Traced(r, ledger + Shipments(r.takes))
  {
  }

  lemma MigrateToReservationIs(s: State, id: nat)
    requires Inv(s) && id < |s.reservations| && s.reservations[id].takes != []
    requires s.reservations[id].status == Open && s.reservations[id].mode == ConsumeImmediately
    ensures |s.reservations[id].takes| == |s.reservations[id].entries|
    ensures MigrateStep(s, id, ReserveUntilFulfilled) == Transition(RestoredState(s, id), Migrated)
  {
    assert Sound(s.reservations[id], s.balances, s.ledger);
    RestoredBalances(s, id);
  }

  lemma RestoredKeeps(s: State, id: nat, b: Balances, ms: seq<Movement>)
    requires Inv(s) && id < |s.reservations| && s.reservations[id].takes != []
    requires s.reservations[id].status == Open && s.reservations[id].mode == ConsumeImmediately
    requires Checked(b) && b.Keys == s.balances.Keys && Linked(s.ledger + ms)
    requires forall k :: NetAt(ms, k) == QtyAt(s.reservations[id].takes, k)
    requires forall k :: At(b, k) == Balance(At(s.balances, k).onHand + QtyAt(s.reservations[id].takes, k),
                                             At(s.balances, k).reserved + QtyAt(s.reservations[id].takes, k))
    ensures Inv(State(b, s.ledger + ms, s.reservations[id := NowReserved(s, id)], s.mode))
  {
    assert Sound(s.reservations[id], s.balances, s.ledger);
    assert Sound(NowReserved(s, id), b, s.ledger + ms);
    ReassembleOne(s, State(b, s.ledger + ms, s.reservations[id := NowReserved(s, id)], s.mode), ms, id, NowReserved(s, id));
  }

  /** Reserving what has just been restored. */
  lemma ReservedAgain(b: Balances, moved: Balances, takes: seq<Take>)
    requires Checked(b) && Checked(moved) && moved.Keys == b.Keys && Allocations(takes, b)
    requires Restocked(b, moved, takes)
    ensures Checked(RaiseReserved(moved, takes)) && RaiseReserved(moved, takes).Keys == b.Keys
    ensures forall k :: At(RaiseReserved(moved, takes), k)
                     == Balance(At(b, k).onHand + QtyAt(takes, k), At(b, k).reserved + QtyAt(takes, k))
  {
    HoldsNothing(b, moved, takes);
    RaisedBalances(moved, takes);
  }

  lemma RestoredStateKeeps(s: State, id: nat)
    requires Inv(s) && id < |s.reservations| && s.reservations[id].takes != []
    requires s.reservations[id].status == Open && s.reservations[id].mode == ConsumeImmediately
    ensures |s.reservations[id].takes| == |s.reservations[id].entries|
    ensures Inv(RestoredState(s, id)) && RestoredState(s, id).balances.Keys == s.balances.Keys
    ensures forall k :: Free(RestoredState(s, id).balances, k) == Free(s.balances, k)
  {
    var ms, moved := Restored(s, id);
    RestoredThenReserved(s, id, moved, ms);
  }

  /** The reversals of a consumed reservation and the balances they lead to. */
  lemma Restored(s: State, id: nat) returns (ms: seq<Movement>, moved: Balances)
    requires Inv(s) && id < |s.reservations| && s.reservations[id].takes != []
    requires s.reservations[id].status == Open && s.reservations[id].mode == ConsumeImmediately
    ensures |s.reservations[id].takes| == |s.reservations[id].entries|
    ensures ms == Reversals(s.reservations[id].takes, s.reservations[id].entries) && moved == Moved(s.balances, ms)
    ensures Checked(moved) && moved.Keys == s.balances.Keys && Linked(s.ledger + ms)
    ensures forall k :: NetAt(ms, k) == QtyAt(s.reservations[id].takes, k)
    ensures Restocked(s.balances, moved, s.reservations[id].takes)
  {
    assert Sound(s.reservations[id], s.balances, s.ledger);
    RestoredBalances(s, id);
    ms := Reversals(s.reservations[id].takes, s.reservations[id].entries);
    moved := Moved(s.balances, ms);
  }

  /** What has been restored can be reserved. */
  lemma ReadyToReserve(s: State, id: nat, ms: seq<Movement>, moved: Balances)
    requires Inv(s) && id < |s.reservations| && s.reservations[id].takes != []
    requires s.reservations[id].status == Open && s.reservations[id].mode == ConsumeImmediately
    requires |s.reservations[id].takes| == |s.reservations[id].entries|
    requires ms == Reversals(s.reservations[id].takes, s.reservations[id].entries) && moved == Moved(s.balances, ms)
    ensures ms != [] && Checked(moved) && Reservable(moved, s.reservations[id].takes)
  {
    assert Sound(s.reservations[id], s.balances, s.ledger);
    RestoredBalances(s, id);
    HoldsNothing(s.balances, moved, s.reservations[id].takes);
  }

  lemma RestoredThenReserved(s: State, id: nat, moved: Balances, ms: seq<Movement>)
    requires Inv(s) && id < |s.reservations| && s.reservations[id].takes != []
    requires s.reservations[id].status == Open && s.reservations[id].mode == ConsumeImmediately
    requires Checked(moved) && moved.Keys == s.balances.Keys && Linked(s.ledger + ms)
    requires forall k :: NetAt(ms, k) == QtyAt(s.reservations[id].takes, k)
    requires Restocked(s.balances, moved, s.reservations[id].takes)
    ensures var b := RaiseReserved(moved, s.reservations[id].takes);
            && Inv(State(b, s.ledger + ms, s.reservations[id := NowReserved(s, id)], s.mode))
            && b.Keys == s.balances.Keys
            && forall k :: Free(b, k) == Free(s.balances, k)
  {
    assert Sound(s.reservations[id], s.balances, s.ledger);
    ReservedAgain(s.balances, moved, s.reservations[id].takes);
    RestoredKeeps(s, id, RaiseReserved(moved, s.reservations[id].takes), ms);
  }

  lemma MigrateToReservation(s: State, id: nat)
    requires Inv(s) && id < |s.reservations| && s.reservations[id].takes != []
    requires s.reservations[id].status == Open && s.reservations[id].mode == ConsumeImmediately
    ensures var next := MigrateStep(s, id, ReserveUntilFulfilled).next;
            && Inv(next)
            && next.balances.Keys == s.balances.Keys
            && (forall k :: Free(next.balances, k) == Free(s.balances, k))
  {
    MigrateToReservationIs(s, id);
    RestoredStateKeeps(s, id);
  }

  /** Restored units are free before they are reserved. */
  lemma HoldsNothing(b: Balances, moved: Balances, takes: seq<Take>)
    requires Checked(b)
    requires Restocked(b, moved, takes)
    ensures forall k :: QtyAt(takes, k) <= Free(moved, k)
  {
    forall k ensures Free(b, k) >= 0 {
      assert k in b ==> b[k].reserved <= b[k].onHand;
    }
  }

  // ---------------------------------------------------------------------------------------
  // Reserving
  // ---------------------------------------------------------------------------------------

  /** What is available is free, and only a key with a row has any. */
  lemma AvailableIsFree(b: Balances, r: Request, components: seq<Component>, k: Key)
    requires Checked(b)
    ensures var available := Available(AvailableIn(b, r.safety, components, r.order), k.item, k.location);
            && (available > 0 ==> k in b)
            && (k in b ==> available <= Free(b, k))
  {
    assert k == Key(k.item, k.location);
  }

  /** What a plan takes is on hand and unreserved, at keys that have a row. */
  lemma PlanFits(b: Balances, r: Request, components: seq<Component>, plan: Plan)
    requires Checked(b) && ValidRequest(r) && r.expansion == Some(components)
    requires PlanAllocationOf(r.quantity, components, AvailableIn(b, r.safety, components, r.order), r.order, r.split) == Ok(plan)
    ensures Allocations(plan.takes, b) && Fits(b, plan.takes)
    ensures forall k :: k in b ==> QtyAt(plan.takes, k) <= Free(b, k)
    ensures plan.supplied + plan.shortage == r.quantity && 0 <= plan.shortage <= r.quantity
  {
    var avail := AvailableIn(b, r.safety, components, r.order);
    var takes := plan.takes;
    PlanTakesWellFormed(r.quantity, components, avail, r.order, r.split);
    AllocatedPlusShortage(r.quantity, components, avail, r.order, r.split);
    forall k ensures 0 <= QtyAt(takes, k) <= Available(avail, k.item, k.location) {
      TakesWithinAvailability(r.quantity, components, avail, r.order, r.split, k);
    }
    forall i | 0 <= i < |takes|
      ensures takes[i].quantity >= 1 && takes[i].key in b && Free(b, takes[i].key) >= takes[i].quantity
    {
      QtyOfDistinct(takes, i);
      AvailableIsFree(b, r, components, takes[i].key);
    }
    forall k | k in b ensures QtyAt(takes, k) <= Free(b, k) {
      AvailableIsFree(b, r, components, k);
    }
  }

  /** One open reservation more, carrying the plan; nothing else touched but the units it takes. */
  ghost predicate RecordedAs(s: State, r: Request, plan: Plan, t: Transition) {
    && t.next.mode == s.mode
    && t.next.balances.Keys == s.balances.Keys
    && (forall k :: Free(t.next.balances, k) == Free(s.balances, k) - QtyAt(plan.takes, k))
    && |t.next.reservations| == |s.reservations| + 1
    && t.next.reservations[..|s.reservations|] == s.reservations
    && (var made := t.next.reservations[|s.reservations|];
        && t.reply == Recorded(ViewOf(|s.reservations|, made))
        && made.line == r.line && made.quantity == r.quantity && made.status == Open && made.mode == s.mode
        && made.shortage == plan.shortage && made.splitBlocked == plan.splitBlocked && made.takes == plan.takes)
  }

  /** A new order line is recorded as one open reservation in the mode in force, whether or not it
      can be filled; exactly what its plan takes stops being free. */
  lemma RecordKeeps(s: State, r: Request, components: seq<Component>, plan: Plan)
    requires Inv(s) && ValidRequest(r) && r.quantity >= 1
    requires FindLine(s.reservations, r.line).None? && r.expansion == Some(components)
    requires PlanAllocationOf(r.quantity, components, AvailableIn(s.balances, r.safety, components, r.order), r.order, r.split) == Ok(plan)
    ensures Inv(RecordStep(s, r, plan).next)
    ensures RecordedAs(s, r, plan, RecordStep(s, r, plan))
  {
    PlanFits(s.balances, r, components, plan);
    if s.mode == ConsumeImmediately && plan.takes != [] {
      RecordConsumed(s, r, plan);
    } else {
      RecordReserved(s, r, plan);
    }
  }

  function Made(s: State, r: Request, plan: Plan, entries: seq<Option<nat>>): Reservation {
    Reservation(r.line, r.quantity, s.mode, Open, plan.shortage, plan.splitBlocked, plan.takes, entries)
  }

  lemma RecordConsumed(s: State, r: Request, plan: Plan)
    requires Inv(s) && FindLine(s.reservations, r.line).None? && r.quantity >= 1
    requires s.mode == ConsumeImmediately && plan.takes != []
    requires Allocations(plan.takes, s.balances) && Fits(s.balances, plan.takes) && 0 <= plan.shortage <= r.quantity
    ensures var made := Made(s, r, plan, Somes(Ids(|s.ledger|, |plan.takes|)));
            var ms := Shipments(plan.takes);
            && RecordStep(s, r, plan) == Transition(State(Moved(s.balances, ms), s.ledger + ms, s.reservations + [made], s.mode),
                                                    Recorded(ViewOf(|s.reservations|, made)))
            && Inv(RecordStep(s, r, plan).next)
            && Moved(s.balances, ms).Keys == s.balances.Keys
            && (forall k :: Free(Moved(s.balances, ms), k) == Free(s.balances, k) - QtyAt(plan.takes, k))
  {
    ShipmentAccepted(s.balances, |s.ledger|, plan.takes);
    ShippedBalances(s.balances, |s.ledger|, plan.takes);
    AppendConsumed(s, Moved(s.balances, Shipments(plan.takes)), Made(s, r, plan, Somes(Ids(|s.ledger|, |plan.takes|))));
  }

  lemma LinkedShipments(ledger: seq<Movement>, takes: seq<Take>)
    requires Linked(ledger) && forall i :: 0 <= i < |takes| ==> takes[i].quantity >= 1
    ensures Linked(ledger + Shipments(takes))
  {
    LinkedAppend(ledger, Shipments(takes));
  }

  lemma AppendConsumed(s: State, b: Balances, made: Reservation)
    requires Inv(s) && Checked(b) && b.Keys == s.balances.Keys
    requires forall k :: At(b, k) == Balance(At(s.balances, k).onHand - QtyAt(made.takes, k), At(s.balances, k).reserved)
    requires forall i :: 0 <= i < |s.reservations| ==> s.reservations[i].line != made.line
    requires made.mode == ConsumeImmediately && made.entries == Somes(Ids(|s.ledger|, |made.takes|))
    requires made.quantity >= 1 && 0 <= made.shortage <= made.quantity && Allocations(made.takes, b)
    ensures Inv(State(b, s.ledger + Shipments(made.takes), s.reservations + [made], s.mode))
  {
    var ms := Shipments(made.takes);
    LinkedShipments(s.ledger, made.takes);
    TracedByShipments(s.ledger, made);
    forall k ensures NetAt(ms, k) == -QtyAt(made.takes, k) {
      ShipmentsNet(made.takes, k);
    }
    AppendReservation(s, State(b, s.ledger + ms, s.reservations + [made], s.mode), ms, made);
  }

  lemma RecordReserved(s: State, r: Request, plan: Plan)
    requires Inv(s) && FindLine(s.reservations, r.line).None? && r.quantity >= 1
    requires s.mode == ReserveUntilFulfilled || plan.takes == []
    requires Allocations(plan.takes, s.balances) && 0 <= plan.shortage <= r.quantity
    requires forall k :: k in s.balances ==> QtyAt(plan.takes, k) <= Free(s.balances, k)
    ensures var made := Made(s, r, plan, Nones(|plan.takes|));
            var b := RaiseReserved(s.balances, plan.takes);
            && RecordStep(s, r, plan) == Transition(s.(balances := b, reservations := s.reservations + [made]),
                                                    Recorded(ViewOf(|s.reservations|, made)))
            && Inv(RecordStep(s, r, plan).next)
            && b.Keys == s.balances.Keys
            && (forall k :: Free(b, k) == Free(s.balances, k) - QtyAt(plan.takes, k))
  {
    RaisedBalances(s.balances, plan.takes);
    var next := RecordStep(s, r, plan).next;
    assert next.ledger == s.ledger + [];
    AppendReservation(s, next, [], Made(s, r, plan, Nones(|plan.takes|)));
  }

  lemma AppendReservation(s: State, next: State, ms: seq<Movement>, made: Reservation)
    requires Inv(s) && Checked(next.balances) && next.balances.Keys == s.balances.Keys
    requires next.ledger == s.ledger + ms && Linked(next.ledger)
    requires next.reservations == s.reservations + [made]
    requires forall i :: 0 <= i < |s.reservations| ==> s.reservations[i].line != made.line
    requires Sound(made, next.balances, next.ledger)
    requires forall k :: At(next.balances, k)
                      == Balance(At(s.balances, k).onHand + NetAt(ms, k), At(s.balances, k).reserved + Share(made, k))
    ensures Inv(next)
  {
    forall k ensures ReservedBy(next.reservations, k) == At(next.balances, k).reserved {
      ReservedAppend(s.reservations, made, k);
    }
    forall i | 0 <= i < |next.reservations| ensures Sound(next.reservations[i], next.balances, next.ledger) {
      if i < |s.reservations| {
        SoundGrows(s.reservations[i], s.balances, s.ledger, next.balances, ms);
      }
    }
    Reassemble(s, next, ms);
  }

  lemma ReserveKeeps(s: State, r: Request)
    requires Inv(s) && ValidRequest(r)
    ensures Inv(ReserveStep(s, r).next)
    ensures ReserveStep(s, r).next.mode == s.mode
    ensures s.reservations <= ReserveStep(s, r).next.reservations
  {
    if r.quantity >= 1 && FindLine(s.reservations, r.line).None? && r.expansion.Some? {
      var components := r.expansion.value;
      var plan := PlanAllocationOf(r.quantity, components, AvailableIn(s.balances, r.safety, components, r.order), r.order, r.split);
      if plan.Ok? {
        RecordKeeps(s, r, components, plan.value);
      }
    }
  }

  // ---------------------------------------------------------------------------------------
  // Adjusting, transferring, reversing
  // ---------------------------------------------------------------------------------------

  /** A posting that concerns no reservation. */
  lemma PostingKeeps(s: State, ms: seq<Movement>)
    requires Inv(s) && PostingOf(s.balances, |s.ledger|, ms).Posted?
    requires Linked(s.ledger + ms)
    ensures Inv(s.(balances := Moved(s.balances, ms), ledger := s.ledger + ms))
  {
    var next := s.(balances := Moved(s.balances, ms), ledger := s.ledger + ms);
    PostedBalances(s.balances, |s.ledger|, ms);
    forall i | 0 <= i < |s.reservations| ensures Sound(s.reservations[i], next.balances, next.ledger) {
      SoundGrows(s.reservations[i], s.balances, s.ledger, next.balances, ms);
    }
    Reassemble(s, next, ms);
  }

  lemma AdjustKeeps(s: State, k: Key, change: Change, explained: bool)
    requires Inv(s)
    ensures Inv(AdjustStep(s, k, change, explained).next)
  {
    var d := DeltaFor(change, At(s.balances, k).onHand);
    var ms := [Movement(k, Adjustment, d, None)];
    if d != 0 && PostingOf(s.balances, |s.ledger|, ms).Posted? {
      LinkedAppend(s.ledger, ms);
      PostingKeeps(s, ms);
    }
  }

  lemma TransferKeeps(s: State, item: nat, source: nat, destination: nat, quantity: int)
    requires Inv(s)
    ensures Inv(TransferStep(s, item, source, destination, quantity).next)
  {
    var ms := TransferMovements(item, source, destination, quantity);
    if quantity > 0 && source != destination && PostingOf(s.balances, |s.ledger|, ms).Posted? {
      LinkedAppend(s.ledger, ms);
      PostingKeeps(s, ms);
    }
  }

  lemma LinkedReversal(ledger: seq<Movement>, entryId: nat)
    requires Linked(ledger) && entryId < |ledger|
    ensures Linked(ledger + [Movement(ledger[entryId].key, Reversal, -ledger[entryId].delta, Some(entryId))])
  {
    LinkedAppend(ledger, [Movement(ledger[entryId].key, Reversal, -ledger[entryId].delta, Some(entryId))]);
  }

  lemma ReverseKeeps(s: State, entryId: nat, explained: bool)
    requires Inv(s)
    ensures Inv(ReverseStep(s, entryId, explained).next)
  {
    if entryId < |s.ledger| {
      var ms := [Movement(s.ledger[entryId].key, Reversal, -s.ledger[entryId].delta, Some(entryId))];
      if PostingOf(s.balances, |s.ledger|, ms).Posted? {
        LinkedReversal(s.ledger, entryId);
        PostingKeeps(s, ms);
      }
    }
  }

  // ---------------------------------------------------------------------------------------
  // Whole runs
  // ---------------------------------------------------------------------------------------

  lemma StepKeeps(s: State, op: Op)
    requires Inv(s) && ValidOp(op)
    ensures Inv(Step(s, op).next)
  {
    match op
    case Reserve(r) => ReserveKeeps(s, r);
    case Fulfill(id) => FulfillKeeps(s, id);
    case Release(id, explained) => ReleaseKeeps(s, id, explained);
    case Migrate(id, to) => MigrateConserves(s, id, to);
    case SetMode(to) =>
    case Adjust(k, change, explained) => AdjustKeeps(s, k, change, explained);
    case Transfer(item, source, destination, quantity) => TransferKeeps(s, item, source, destination, quantity);
    case Reverse(entryId, explained) => ReverseKeeps(s, entryId, explained);
  }

  ghost predicate ValidRun(ops: seq<Op>) {
    forall i :: 0 <= i < |ops| ==> ValidOp(ops[i])
  }

  /** The state after a run. */
  ghost function Run(s: State, ops: seq<Op>): (r: State)
    requires Inv(s) && ValidRun(ops)
    ensures Inv(r)
    decreases ops
  {
    if ops == [] then s
    else
      StepKeeps(s, ops[0]);
      Run(Step(s, ops[0]).next, ops[1..])
  }

  /** After any run from nothing, every key's on-hand figure is the sum of its ledger entries, its
      reserved figure is the sum of what open reservations hold there, and 0 <= reserved <= onHand. */
  lemma RunExplained(ops: seq<Op>, k: Key)
    requires ValidRun(ops)
    ensures Inv(EMPTY)
    ensures var s := Run(EMPTY, ops);
            && At(s.balances, k) == Balance(NetAt(s.ledger, k), ReservedBy(s.reservations, k))
            && 0 <= ReservedBy(s.reservations, k) <= NetAt(s.ledger, k)
  {
    EmptyInv();
    var s := Run(EMPTY, ops);
    assert k in s.balances ==> 0 <= s.balances[k].reserved <= s.balances[k].onHand;
  }

  /** Replies that say a transaction wrote something. */
  predicate Wrote(reply: Reply) {
    reply.Recorded? || reply.Fulfilled? || reply.ReleasedUnits? || reply.Migrated? || reply.Adjusted?
    || reply.Transferred? || reply.Reversed?
  }

  /** A refused transaction leaves everything as it was. */
  lemma RefusedChangesNothing(s: State, op: Op)
    requires Inv(s) && ValidOp(op)
    ensures !Wrote(Step(s, op).reply) ==> Step(s, op).next == s
  {
  }

  /** An allocation, once made, is never recomputed: only the recording of it changes. */
  ghost predicate Kept(a: Reservation, b: Reservation) {
    && b.line == a.line && b.quantity == a.quantity && b.takes == a.takes
    && b.shortage == a.shortage && b.splitBlocked == a.splitBlocked
    && (a.status != Open ==> b.status == a.status)
  }

  ghost predicate Framed(s: State, next: State) {
    && s.ledger <= next.ledger
    && |s.reservations| <= |next.reservations|
    && forall i :: 0 <= i < |s.reservations| ==> Kept(s.reservations[i], next.reservations[i])
  }

  lemma FulfillFrames(s: State, id: nat)
    ensures Framed(s, FulfillStep(s, id).next)
  {
  }

  lemma ReleaseFrames(s: State, id: nat, explained: bool)
    requires Paired(s)
    ensures Framed(s, ReleaseStep(s, id, explained).next)
  {
  }

  lemma MigrateFrames(s: State, id: nat, to: Mode)
    requires Paired(s)
    ensures Framed(s, MigrateStep(s, id, to).next)
  {
  }

  lemma RecordFrames(s: State, r: Request, plan: Plan)
    ensures Framed(s, RecordStep(s, r, plan).next)
  {
  }

  lemma ReserveFrames(s: State, r: Request)
    ensures Framed(s, ReserveStep(s, r).next)
  {
    if r.expansion.Some? {
      var plan := PlanAllocationOf(r.quantity, r.expansion.value,
                                   AvailableIn(s.balances, r.safety, r.expansion.value, r.order), r.order, r.split);
      if plan.Ok? {
        RecordFrames(s, r, plan.value);
      }
    }
  }

  lemma AdjustFrames(s: State, k: Key, change: Change, explained: bool)
    ensures Framed(s, AdjustStep(s, k, change, explained).next)
  {
  }

  lemma TransferFrames(s: State, item: nat, source: nat, destination: nat, quantity: int)
    ensures Framed(s, TransferStep(s, item, source, destination, quantity).next)
  {
  }

  lemma ReverseFrames(s: State, entryId: nat, explained: bool)
    ensures Framed(s, ReverseStep(s, entryId, explained).next)
  {
  }

  lemma StepFrames(s: State, op: Op)
    requires Inv(s) && ValidOp(op)
    ensures Framed(s, Step(s, op).next)
  {
    match op
    case Reserve(r) => ReserveFrames(s, r);
    case Fulfill(id) => FulfillFrames(s, id);
    case Release(id, explained) => ReleaseFrames(s, id, explained);
    case Migrate(id, to) => MigrateFrames(s, id, to);
    case SetMode(to) =>
    case Adjust(k, change, explained) => AdjustFrames(s, k, change, explained);
    case Transfer(item, source, destination, quantity) => TransferFrames(s, item, source, destination, quantity);
    case Reverse(entryId, explained) => ReverseFrames(s, entryId, explained);
  }

  /** The ledger is append-only and allocations outlive everything that happens to them: a run only
      appends entries, keeps every reservation's allocations, and never reopens one. */
  lemma {:induction false} RunFrames(s: State, ops: seq<Op>)
    requires Inv(s) && ValidRun(ops)
    ensures Framed(s, Run(s, ops))
    decreases ops
  {
    if ops != [] {
      StepKeeps(s, ops[0]);
      StepFrames(s, ops[0]);
      RunFrames(Step(s, ops[0]).next, ops[1..]);
    }
  }

  /**
    Reserve, then anything at all, then release: however many migrations, adjustments, transfers
    and other orders came in between, the release gives back at every key exactly what that
    reservation took there when it was made.
   */
  lemma ReleaseGivesBackWhatReserveTook(s: State, request: Request, ops: seq<Op>, k: Key)
    requires Inv(s) && ValidRequest(request) && ValidRun(ops)
    requires ReserveStep(s, request).reply.Recorded?
    ensures Inv(ReserveStep(s, request).next)
    ensures var made := ReserveStep(s, request).next;
            var later := Run(made, ops);
            var id := |s.reservations|;
            id < |later.reservations| && (later.reservations[id].status == Open ==>
              var released := ReleaseStep(later, id, true);
              && released.reply.ReleasedUnits?
              && Free(released.next.balances, k) - Free(later.balances, k) == Free(s.balances, k) - Free(made.balances, k))
  {
    var components := request.expansion.value;
    var plan := PlanAllocationOf(request.quantity, components,
                                 AvailableIn(s.balances, request.safety, components, request.order), request.order, request.split).value;
    RecordKeeps(s, request, components, plan);
    var made, id := ReserveStep(s, request).next, |s.reservations|;
    RunFrames(made, ops);
    var later := Run(made, ops);
    if later.reservations[id].status == Open {
      ReleaseRestores(later, id);
    }
  }

  // ---------------------------------------------------------------------------------------
  // Switching the consumption mode
  // ---------------------------------------------------------------------------------------

  /** Each listed reservation is migrated in a transaction of its own, refused or not. */
  ghost function MigrateAll(s: State, ids: seq<nat>, to: Mode): (r: State)
    requires Inv(s)
    ensures Inv(r)
    ensures |r.reservations| == |s.reservations|
    decreases ids
  {
    if ids == [] then s
    else
      MigrateConserves(s, ids[0], to);
      MigrateAll(MigrateStep(s, ids[0], to).next, ids[1..], to)
  }

  datatype SwitchOutcome = Same | NeedsMigration(openReservations: nat) | Switched

  datatype SwitchTransition = SwitchTransition(next: State, outcome: SwitchOutcome)

  /** What a switch does, given the open reservations in the order they were read. */
  ghost function SwitchStep(s: State, to: Mode, migrateOpen: bool, open: seq<nat>): SwitchTransition
    requires Inv(s)
  {
    if s.mode == to then SwitchTransition(s, Same)
    else if open != [] && !migrateOpen then SwitchTransition(s, NeedsMigration(|open|))
    else SwitchTransition(MigrateAll(s, open, to).(mode := to), Switched)
  }

  lemma {:induction false} MigrateAllConserves(s: State, ids: seq<nat>, to: Mode)
    requires Inv(s)
    ensures var t := MigrateAll(s, ids, to);
            && t.mode == s.mode
            && t.balances.Keys == s.balances.Keys
            && (forall k :: Free(t.balances, k) == Free(s.balances, k))
            && |t.reservations| == |s.reservations|
            && (forall i :: 0 <= i < |s.reservations| ==> SameButRecording(s.reservations[i], t.reservations[i]))
            && (forall i :: 0 <= i < |s.reservations| && i !in ids ==> t.reservations[i] == s.reservations[i])
    decreases ids
  {
    if ids != [] {
      var next := MigrateStep(s, ids[0], to).next;
      MigrateConserves(s, ids[0], to);
      MigrateAllConserves(next, ids[1..], to);
      assert forall i :: i in ids <==> i == ids[0] || i in ids[1..];
    }
  }

  /**
    A confirmed switch leaves every free figure alone, in whatever order the open reservations are
    visited, and which of them end up migrated does not depend on that order: all of them when
    switching to reserving, and when switching to consuming exactly those whose allocation fits
    beside everything reserved at the start. The mode itself is switched either way.
   */
  lemma {:induction false} SwitchMigratesExactly(s: State, ids: seq<nat>, to: Mode, id: nat)
    requires Inv(s) && id in ids && id < |s.reservations|
    requires s.reservations[id].status == Open && s.reservations[id].mode != to
    ensures MigrateAll(s, ids, to).reservations[id].mode == to
       <==> to == ReserveUntilFulfilled || Fits(s.balances, s.reservations[id].takes)
    decreases ids
  {
    var next := MigrateStep(s, ids[0], to).next;
    MigrateLeaves(s, ids[0], to, id);
    MigrateAllConserves(next, ids[1..], to);
    if id == ids[0] && next.reservations[id].mode == to {
      MigratedStays(next, ids[1..], to, id);
    } else {
      if id in ids[1..] {
        SwitchMigratesExactly(next, ids[1..], to, id);
      }
    }
  }

  /** What migrating one reservation means for the chances of another, or for itself. */
  lemma MigrateLeaves(s: State, first: nat, to: Mode, id: nat)
    requires Inv(s) && id < |s.reservations|
    requires s.reservations[id].status == Open && s.reservations[id].mode != to
    ensures var next := MigrateStep(s, first, to).next;
            && Inv(next) && id < |next.reservations|
            && next.reservations[id].takes == s.reservations[id].takes
            && next.reservations[id].status == Open
            && (Fits(next.balances, s.reservations[id].takes) <==> Fits(s.balances, s.reservations[id].takes))
            && (first != id ==> next.reservations[id].mode != to)
            && (first == id ==> (next.reservations[id].mode == to
                                 <==> to == ReserveUntilFulfilled || Fits(s.balances, s.reservations[id].takes)))
  {
    MigrateConserves(s, first, to);
  }

  lemma {:induction false} MigratedStays(s: State, ids: seq<nat>, to: Mode, id: nat)
    requires Inv(s) && id < |s.reservations| && s.reservations[id].mode == to
    ensures MigrateAll(s, ids, to).reservations[id].mode == to
    decreases ids
  {
    if ids != [] {
      MigrateConserves(s, ids[0], to);
      MigratedStays(MigrateStep(s, ids[0], to).next, ids[1..], to, id);
    }
  }
}
