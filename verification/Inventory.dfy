/**
  The inventory tables as an object, written to one row at a time the way the source writes them.

  Every method that stands for a transaction is shown to make exactly the step that
  `Reservations` defines, and every single write is shown to meet the constraints of the balance
  table (`0 <= reserved <= on hand`) at the moment it is made.
 */
module Inventory {
  import opened Stock
  import opened Allocation
  import opened Ledger
  import opened Reservations
  import opened InventoryInvariant
  import opened InventoryRuns

  /** Balances with an empty row at every target that had none. */
  function WithRows(b: Balances, targets: seq<Key>): Balances {
    map k | k in b.Keys + (set t | t in targets) :: At(b, k)
  }

  /** What the decision loop of a posting arrives at. */
  datatype Decision = Accept(resulting: seq<Resulting>) | Decline(posting: Posting)

  function DecisionOf(b: Balances, ms: seq<Movement>, targets: seq<Key>): Decision {
    if exists k :: k in targets && LeavesBelowReserved(b, ms, k) then Decline(Invalid(BELOW_RESERVED))
    else if ShortfallsIn(b, ms, targets) != [] then Decline(Insufficient(ShortfallsIn(b, ms, targets)))
    else Accept(ResultingIn(b, ms, targets))
  }

  lemma {:induction false} ResultingAll(b: Balances, ms: seq<Movement>, targets: seq<Key>)
    requires ShortfallsIn(b, ms, targets) == []
    ensures |ResultingIn(b, ms, targets)| == |targets|
    ensures forall i :: 0 <= i < |targets| ==>
              ResultingIn(b, ms, targets)[i] == Resulting(targets[i], After(b, ms, targets[i]), At(b, targets[i]).reserved)
  {
    if targets != [] {
      ResultingAll(b, ms, targets[..|targets| - 1]);
    }
  }

  lemma {:induction false} QtyPrefix(takes: seq<Take>, i: nat, k: Key)
    requires i <= |takes| && forall j :: 0 <= j < |takes| ==> takes[j].quantity >= 0
    ensures 0 <= QtyAt(takes[..i], k) <= QtyAt(takes, k)
    decreases |takes|
  {
    if i == |takes| {
      assert takes[..i] == takes;
      if takes != [] {
        QtyPrefix(takes[..|takes| - 1], |takes| - 1, k);
      }
    } else {
      QtyPrefix(takes[..|takes| - 1], i, k);
      assert takes[..|takes| - 1][..i] == takes[..i];
    }
  }

  /** The rows to be written are those the movements touch, with their new figures, which cover what is
      reserved there. */
  ghost predicate Accepted(resulting: seq<Resulting>, b: Balances, ms: seq<Movement>, targets: seq<Key>) {
    && |resulting| == |targets|
    && (forall i :: 0 <= i < |targets| ==>
          resulting[i] == Resulting(targets[i], After(b, ms, targets[i]), At(b, targets[i]).reserved))
    && (forall k :: k in targets ==> 0 <= At(b, k).reserved <= After(b, ms, k))
    && (forall k :: k in targets <==> k in Touched(ms))
  }

  /** What is to be written when nothing stands against a posting. */
  lemma AcceptedRows(b: Balances, ms: seq<Movement>, targets: seq<Key>)
    requires Checked(b) && targets == LockOrderOf(KeysOf(ms)) && DecisionOf(b, ms, targets).Accept?
    ensures Accepted(DecisionOf(b, ms, targets).resulting, b, ms, targets)
  {
    ResultingAll(b, ms, targets);
    TargetsAreTouched(ms);
    NoShortfallMeans(b, ms, targets);
  }

  /** The decision over the locked rows is the posting. */
  lemma {:induction false} DecisionIsPosting(b: Balances, size: nat, ms: seq<Movement>, d: Decision)
    requires ms != [] && Fault(ms).None? && d == DecisionOf(b, ms, LockOrderOf(KeysOf(ms)))
    ensures PostingOf(b, size, ms) == if d.Decline? then d.posting else Posted(Ids(size, |ms|), d.resulting)
  {
  }

  /** The first `i` targets have been given their new on-hand figures. */
  ghost predicate WrittenUpTo(balances: Balances, b: Balances, ms: seq<Movement>, targets: seq<Key>, i: nat)
    requires i <= |targets|
  {
    && balances.Keys == b.Keys + (set t | t in targets)
    && forall k :: k in balances ==>
         balances[k] == if k in targets[..i] then Balance(After(b, ms, k), At(b, k).reserved) else At(b, k)
  }

  lemma WrittenStep(balances: Balances, b: Balances, ms: seq<Movement>, targets: seq<Key>, i: nat)
    requires i < |targets| && WrittenUpTo(balances, b, ms, targets, i)
    ensures targets[i] in balances && balances[targets[i]].reserved == At(b, targets[i]).reserved
    ensures WrittenUpTo(balances[targets[i] := Balance(After(b, ms, targets[i]), balances[targets[i]].reserved)], b, ms, targets, i + 1)
  {
    assert targets[i] in targets;
    assert targets[..i + 1] == targets[..i] + [targets[i]];
  }

  lemma AllWritten(balances: Balances, b: Balances, ms: seq<Movement>, targets: seq<Key>)
    requires WrittenUpTo(balances, b, ms, targets, |targets|) && forall k :: k in targets <==> k in Touched(ms)
    ensures balances == Moved(b, ms)
  {
    assert targets[..|targets|] == targets;
    forall k | k !in targets ensures NetAt(ms, k) == 0 {
      NetElsewhere(ms, k);
    }
  }

  /** One allocation more lowers one row more, whether or not the clamp at zero takes effect. */
  lemma LowerOne(b: Balances, takes: seq<Take>, i: nat)
    requires i < |takes| && takes[i].quantity >= 0
    ensures var before, k := LowerReserved(b, takes[..i]), takes[i].key;
            LowerReserved(b, takes[..i + 1]) ==
              if k in before then before[k := Balance(before[k].onHand, Max(0, before[k].reserved - takes[i].quantity))] else before
  {
    assert takes[..i + 1][..i] == takes[..i];
  }

  lemma RaiseOne(b: Balances, takes: seq<Take>, i: nat)
    requires i < |takes|
    ensures var before, k := RaiseReserved(b, takes[..i]), takes[i].key;
            RaiseReserved(b, takes[..i + 1]) ==
              if k in before then before[k := Balance(before[k].onHand, before[k].reserved + takes[i].quantity)] else before
  {
    assert takes[..i + 1][..i] == takes[..i];
  }

  method Validate(ms: seq<Movement>) returns (fault: Option<string>)
    ensures fault == Fault(ms)
  {
    for i := 0 to |ms|
      invariant Fault(ms[..i]).None?
    {
      assert ms[..i + 1][..i] == ms[..i];
      if ms[i].delta == 0 {
        FaultSticks(ms, i + 1);
        return Some(ZERO_DELTA);
      }
      if (ms[i].kind == Reversal) != ms[i].reversalOf.Some? {
        FaultSticks(ms, i + 1);
        return Some(UNLINKED);
      }
    }
    assert ms[..|ms|] == ms;
    fault := None;
  }

  lemma {:induction false} FaultSticks(ms: seq<Movement>, i: nat)
    requires i <= |ms| && Fault(ms[..i]).Some?
    ensures Fault(ms) == Fault(ms[..i])
    decreases |ms|
  {
    if i == |ms| {
      assert ms[..i] == ms;
    } else {
      assert ms[..|ms| - 1][..i] == ms[..i];
      FaultSticks(ms[..|ms| - 1], i);
    }
  }

  method NetByKey(ms: seq<Movement>) returns (net: map<Key, int>)
    ensures forall k :: (if k in net then net[k] else 0) == NetAt(ms, k)
  {
    net := map[];
    for i := 0 to |ms|
      invariant forall k :: (if k in net then net[k] else 0) == NetAt(ms[..i], k)
    {
      assert ms[..i + 1][..i] == ms[..i];
      net := net[ms[i].key := (if ms[i].key in net then net[ms[i].key] else 0) + ms[i].delta];
    }
    assert ms[..|ms|] == ms;
  }

  /** The decision loop: short keys are collected, and the first key left below what is reserved
      there ends the loop. */
  method Decide(held: map<Key, Balance>, net: map<Key, int>, targets: seq<Key>, ghost b: Balances, ghost ms: seq<Movement>)
    returns (d: Decision)
    requires forall k :: k in targets ==> k in held && held[k] == At(b, k)
    requires forall k :: (if k in net then net[k] else 0) == NetAt(ms, k)
    ensures d == DecisionOf(b, ms, targets)
  {
    var shortfalls: seq<Shortfall>, resulting: seq<Resulting> := [], [];
    for i := 0 to |targets|
      invariant forall j :: 0 <= j < i ==> !LeavesBelowReserved(b, ms, targets[j])
      invariant shortfalls == ShortfallsIn(b, ms, targets[..i])
      invariant resulting == ResultingIn(b, ms, targets[..i])
    {
      var k := targets[i];
      var current, change := held[k], if k in net then net[k] else 0;
      var onHand := current.onHand + change;
      assert targets[..i + 1][..i] == targets[..i];
      if onHand < 0 {
        shortfalls := shortfalls + [Shortfall(k, current.onHand, -change, -onHand)];
      } else if onHand < current.reserved {
        assert LeavesBelowReserved(b, ms, k);
        return Decline(Invalid(BELOW_RESERVED));
      } else {
        resulting := resulting + [Resulting(k, onHand, current.reserved)];
      }
    }
    assert targets[..|targets|] == targets;
    d := if shortfalls != [] then Decline(Insufficient(shortfalls)) else Accept(resulting);
  }

  class Tables {
    var balances: Balances
    var ledger: seq<Movement>
    var reservations: seq<Reservation>
    var mode: Mode

    ghost function Value(): State
      reads this
    {
      State(balances, ledger, reservations, mode)
    }

    ghost predicate Valid()
      reads this
    {
      Inv(Value())
    }

    constructor ()
      ensures Valid() && Value() == EMPTY
    {
      balances, ledger, reservations, mode := map[], [], [], ReserveUntilFulfilled;
      new;
      EmptyInv();
    }

    // -------------------------------------------------------------------------------------
    // Single-row writes. Their preconditions are the balance table's constraints.
    // -------------------------------------------------------------------------------------

    method InsertRowIfAbsent(k: Key)
      modifies this`balances
      ensures ledger == old(ledger) && reservations == old(reservations) && mode == old(mode)
      ensures balances == if k in old(balances) then old(balances) else old(balances)[k := Balance(0, 0)]
    {
      if k !in balances {
        balances := balances[k := Balance(0, 0)];
      }
    }

    method WriteOnHand(k: Key, onHand: int)
      requires k in balances && 0 <= balances[k].reserved <= onHand
      modifies this`balances
      ensures ledger == old(ledger) && reservations == old(reservations) && mode == old(mode)
      ensures balances == old(balances)[k := Balance(onHand, old(balances)[k].reserved)]
    {
      balances := balances[k := Balance(onHand, balances[k].reserved)];
    }

    method WriteReserved(k: Key, reserved: int)
      requires k in balances && 0 <= reserved <= balances[k].onHand
      modifies this`balances
      ensures ledger == old(ledger) && reservations == old(reservations) && mode == old(mode)
      ensures balances == old(balances)[k := Balance(old(balances)[k].onHand, reserved)]
    {
      balances := balances[k := Balance(balances[k].onHand, reserved)];
    }

    // -------------------------------------------------------------------------------------
    // Posting
    // -------------------------------------------------------------------------------------

    method CreateRows(targets: seq<Key>)
      modifies this`balances
      ensures ledger == old(ledger) && reservations == old(reservations) && mode == old(mode)
      ensures balances == WithRows(old(balances), targets)
    {
      for i := 0 to |targets|
        invariant balances == WithRows(old(balances), targets[..i])
      {
        InsertRowIfAbsent(targets[i]);
        assert forall k :: k in targets[..i + 1] <==> k in targets[..i] || k == targets[i];
      }
      assert targets[..|targets|] == targets;
    }

    /** Takes the rows one at a time; a key without a row is passed over. */
    method LockBalances(targets: seq<Key>) returns (held: map<Key, Balance>)
      ensures held == map k | k in targets && k in balances :: balances[k]
    {
      held := map[];
      for i := 0 to |targets|
        invariant held == map k | k in targets[..i] && k in balances :: balances[k]
      {
        if targets[i] in balances {
          held := held[targets[i] := balances[targets[i]]];
        }
      }
      assert targets[..|targets|] == targets;
    }

    method AppendEntries(ms: seq<Movement>) returns (ids: seq<nat>)
      modifies this`ledger
      ensures balances == old(balances) && reservations == old(reservations) && mode == old(mode)
      ensures ledger == old(ledger) + ms
      ensures ids == Ids(|old(ledger)|, |ms|)
    {
      ids := [];
      for i := 0 to |ms|
        invariant ledger == old(ledger) + ms[..i]
        invariant ids == Ids(|old(ledger)|, i)
      {
        ids := ids + [|ledger|];
        ledger := ledger + [ms[i]];
      }
      assert ms[..|ms|] == ms;
    }

    method WriteBalances(resulting: seq<Resulting>, ghost b: Balances, ghost ms: seq<Movement>, ghost targets: seq<Key>)
      requires balances == WithRows(b, targets)
      requires Accepted(resulting, b, ms, targets)
      modifies this`balances
      ensures ledger == old(ledger) && reservations == old(reservations) && mode == old(mode)
      ensures balances == Moved(b, ms)
    {
      for i := 0 to |resulting|
        invariant WrittenUpTo(balances, b, ms, targets, i)
      {
        var r := resulting[i];
        WrittenStep(balances, b, ms, targets, i);
        WriteOnHand(r.key, r.onHand);
      }
      AllWritten(balances, b, ms, targets);
    }

    /** Applies movements and records them, or does neither; a refusal leaves only empty rows
        behind, for the transaction around it to discard. */
    method PostMovements(ms: seq<Movement>) returns (p: Posting)
      requires Checked(balances)
      modifies this`balances, this`ledger
      ensures reservations == old(reservations) && mode == old(mode)
      ensures p == PostingOf(old(balances), |old(ledger)|, ms)
      ensures p.Posted? ==> balances == Moved(old(balances), ms) && ledger == old(ledger) + ms
      ensures !p.Posted? ==> ledger == old(ledger) && forall k :: At(balances, k) == At(old(balances), k)
    {
      if ms == [] {
        return Invalid(NO_MOVEMENT);
      }
      var fault := Validate(ms);
      if fault.Some? {
        return Invalid(fault.value);
      }
      var targets := LockOrder(KeysOf(ms));
      CreateRows(targets);
      var held := LockBalances(targets);
      var net := NetByKey(ms);
      var d := Decide(held, net, targets, old(balances), ms);
      DecisionIsPosting(old(balances), |ledger|, ms, d);
      if d.Decline? {
        return d.posting;
      }
      AcceptedRows(old(balances), ms, targets);
      var ids := AppendEntries(ms);
      WriteBalances(d.resulting, old(balances), ms, targets);
      return Posted(ids, d.resulting);
    }

    // -------------------------------------------------------------------------------------
    // Reserved figures
    // -------------------------------------------------------------------------------------

    method AddReserved(takes: seq<Take>)
      requires Checked(balances)
      requires Reservable(balances, takes)
      modifies this`balances
      ensures ledger == old(ledger) && reservations == old(reservations) && mode == old(mode)
      ensures balances == RaiseReserved(old(balances), takes)
    {
      for i := 0 to |takes|
        invariant balances == RaiseReserved(old(balances), takes[..i])
      {
        var k := takes[i].key;
        RaiseOne(old(balances), takes, i);
        if k in balances {
          QtyPrefix(takes, i + 1, k);
          assert takes[..i + 1][..i] == takes[..i];
          WriteReserved(k, balances[k].reserved + takes[i].quantity);
        }
      }
      assert takes[..|takes|] == takes;
    }

    method ReleaseReserved(takes: seq<Take>)
      requires Checked(balances)
      requires forall i :: 0 <= i < |takes| ==> takes[i].quantity >= 0
      modifies this`balances
      ensures ledger == old(ledger) && reservations == old(reservations) && mode == old(mode)
      ensures balances == LowerReserved(old(balances), takes)
    {
      for i := 0 to |takes|
        invariant balances == LowerReserved(old(balances), takes[..i])
      {
        var k := takes[i].key;
        LowerOne(old(balances), takes, i);
        if k in balances {
          QtyPrefix(takes, i, k);
          WriteReserved(k, Max(0, balances[k].reserved - takes[i].quantity));
        }
      }
      assert takes[..|takes|] == takes;
    }

    /** Discards everything a transaction has written. */
    method Rollback(balances: Balances, ledger: seq<Movement>, reservations: seq<Reservation>)
      modifies this`balances, this`ledger, this`reservations
      ensures mode == old(mode)
      ensures this.balances == balances && this.ledger == ledger && this.reservations == reservations
    {
      this.balances, this.ledger, this.reservations := balances, ledger, reservations;
    }

    /** A transaction that is one posting: kept when it goes through, discarded otherwise. */
    method PostOrRollback(ms: seq<Movement>) returns (p: Posting)
      requires Checked(balances)
      modifies this`balances, this`ledger, this`reservations
      ensures mode == old(mode)
      ensures p == PostingOf(old(balances), |old(ledger)|, ms)
      ensures reservations == old(reservations)
      ensures p.Posted? ==> balances == Moved(old(balances), ms) && ledger == old(ledger) + ms
      ensures !p.Posted? ==> balances == old(balances) && ledger == old(ledger)
    {
      var before, entriesBefore, rowsBefore := balances, ledger, reservations;
      p := PostMovements(ms);
      if !p.Posted? {
        Rollback(before, entriesBefore, rowsBefore);
      }
    }

    // -------------------------------------------------------------------------------------
    // Reserving
    // -------------------------------------------------------------------------------------

    /** The rows come back from the database in no particular order. */
    method AvailableByItem(r: Request, components: seq<Component>) returns (available: Availability)
      ensures available == AvailableIn(balances, r.safety, components, r.order)
    {
      available := map[];
      if components == [] || r.order == [] {
        return;
      }
      var rows := set k | k in balances && k.location in r.order && HasItem(components, k.item);
      ghost var all := rows;
      while rows != {}
        invariant rows <= all
        invariant available == map k | k in all - rows :: Max(0, balances[k].onHand - balances[k].reserved - SafetyStock(r.safety, k))
        decreases rows
      {
        var k :| k in rows;
        available := available[k := Max(0, balances[k].onHand - balances[k].reserved - SafetyStock(r.safety, k))];
        rows := rows - {k};
      }
    }

    /** Every key the line could draw on. */
    method Candidates(components: seq<Component>, order: seq<nat>) returns (keys: seq<Key>)
      ensures forall k :: k in keys <==> HasItem(components, k.item) && k.location in order
    {
      keys := [];
      for i := 0 to |components|
        invariant forall k :: k in keys <==> HasItem(components[..i], k.item) && k.location in order
      {
        var more := seq(|order|, j requires 0 <= j < |order| => Key(components[i].item, order[j]));
        assert forall c :: c in components[..i + 1] <==> c in components[..i] || c == components[i];
        assert forall k: Key :: k in more <==> k.item == components[i].item && k.location in order by {
          forall k: Key | k.item == components[i].item && k.location in order ensures k in more {
            var j :| 0 <= j < |order| && order[j] == k.location;
            assert more[j] == k;
          }
        }
        keys := keys + more;
      }
      assert components[..|components|] == components;
    }

    /** The entry that consumed each take, found again by the take's key. */
    static method EntriesByTake(takes: seq<Take>, ids: seq<nat>) returns (entries: seq<Option<nat>>)
      requires |ids| == |takes|
      requires forall i, j :: 0 <= i < j < |takes| ==> takes[i].key != takes[j].key
      ensures entries == Somes(ids)
    {
      var byTake: map<Key, nat> := map[];
      for i := 0 to |takes|
        invariant forall j :: 0 <= j < i ==> takes[j].key in byTake && byTake[takes[j].key] == ids[j]
      {
        byTake := byTake[takes[i].key := ids[i]];
      }
      entries := [];
      for i := 0 to |takes|
        invariant |entries| == i && forall j :: 0 <= j < i ==> entries[j] == Some(ids[j])
      {
        entries := entries + [if takes[i].key in byTake then Some(byTake[takes[i].key]) else None];
      }
    }

    method Reserve(r: Request) returns (reply: Reply)
      requires Valid() && ValidRequest(r)
      modifies this
      ensures Valid()
      ensures Transition(Value(), reply) == ReserveStep(old(Value()), r)
    {
      ReserveKeeps(Value(), r);
      if r.quantity < 1 {
        return Refused(NOT_WHOLE);
      }
      var existing := FindLine(reservations, r.line);
      if existing.Some? {
        return AlreadyRecorded(ViewOf(existing.value, reservations[existing.value]));
      }
      if r.expansion.None? {
        return NotFound;
      }
      var components := r.expansion.value;
      var candidates := Candidates(components, r.order);
      var order := LockOrder(candidates);
      var _ := LockBalances(order);
      var available := AvailableByItem(r, components);
      var planned := PlanAllocation(r.quantity, components, available, r.order, r.split);
      if planned.Err? {
        return Threw(planned.error);
      }
      reply := Record(r, components, planned.value);
    }

    method Record(r: Request, ghost components: seq<Component>, plan: Plan) returns (reply: Reply)
      requires Valid() && ValidRequest(r) && r.quantity >= 1
      requires FindLine(reservations, r.line).None? && r.expansion == Some(components)
      requires PlanAllocationOf(r.quantity, components, AvailableIn(balances, r.safety, components, r.order), r.order, r.split) == Ok(plan)
      modifies this
      ensures Transition(Value(), reply) == RecordStep(old(Value()), r, plan)
    {
      var id := |reservations|;
      var entries := Nones(|plan.takes|);
      PlanFits(balances, r, components, plan);
      if mode == ConsumeImmediately && plan.takes != [] {
        var posted := PostOrRollback(Shipments(plan.takes));
        if !posted.Posted? {
          return Refused(if posted.Insufficient? then MOVED_MEANWHILE else posted.reason);
        }
        ShipmentAccepted(old(balances), |old(ledger)|, plan.takes);
        entries := EntriesByTake(plan.takes, posted.entryIds);
      } else if plan.takes != [] {
        AddReserved(plan.takes);
      } else {
        assert balances == RaiseReserved(balances, plan.takes);
      }
      var made := Reservation(r.line, r.quantity, mode, Open, plan.shortage, plan.splitBlocked, plan.takes, entries);
      reservations := reservations + [made];
      reply := Recorded(ViewOf(id, made));
    }

    // -------------------------------------------------------------------------------------
    // Resolving
    // -------------------------------------------------------------------------------------

    method SetStatus(id: nat, status: Status)
      requires id < |reservations|
      modifies this`reservations
      ensures balances == old(balances) && ledger == old(ledger) && mode == old(mode)
      ensures reservations == old(reservations)[id := old(reservations)[id].(status := status)]
    {
      reservations := reservations[id := reservations[id].(status := status)];
    }

    /** The shipment is posted before the units stop being reserved. */
    method FulfillReservation(id: nat) returns (reply: Reply)
      requires Valid()
      modifies this
      ensures Valid()
      ensures Transition(Value(), reply) == FulfillStep(old(Value()), id)
    {
      FulfillKeeps(Value(), id);
      if id >= |reservations| {
        return NotFound;
      }
      var held := reservations[id];
      if held.status != Open {
        return AlreadyResolved(held.status);
      }
      if held.mode == ReserveUntilFulfilled && held.takes != [] {
        assert Sound(held, balances, ledger);
        ShipHeld(Value(), id);
        if Fits(balances, held.takes) {
          ShippedBalances(balances, |ledger|, held.takes);
        }
        var posted := PostOrRollback(Shipments(held.takes));
        if !posted.Posted? {
          return Refused(if posted.Insufficient? then NO_LONGER_THERE else posted.reason);
        }
        ReleaseReserved(held.takes);
      }
      SetStatus(id, Consumed);
      reply := Fulfilled;
    }

    static method ReversalsFor(takes: seq<Take>, entries: seq<Option<nat>>) returns (ms: seq<Movement>, restored: int)
      requires |takes| == |entries|
      ensures ms == Reversals(takes, entries) && restored == Reversible(takes, entries)
    {
      ms, restored := [], 0;
      for i := 0 to |takes|
        invariant ms == Reversals(takes[..i], entries[..i]) && restored == Reversible(takes[..i], entries[..i])
      {
        assert takes[..i + 1][..i] == takes[..i] && entries[..i + 1][..i] == entries[..i];
        if entries[i].Some? {
          ms := ms + [Movement(takes[i].key, Reversal, takes[i].quantity, entries[i])];
          restored := restored + takes[i].quantity;
        }
      }
      assert takes[..|takes|] == takes && entries[..|takes|] == entries;
    }

    static method Total(takes: seq<Take>) returns (total: int)
      ensures total == TotalQty(takes)
    {
      total := 0;
      for i := 0 to |takes|
        invariant total == TotalQty(takes[..i])
      {
        assert takes[..i + 1][..i] == takes[..i];
        total := total + takes[i].quantity;
      }
      assert takes[..|takes|] == takes;
    }

    method ReleaseReservation(id: nat, explained: bool) returns (reply: Reply)
      requires Valid()
      modifies this
      ensures Valid()
      ensures Transition(Value(), reply) == ReleaseStep(old(Value()), id, explained)
    {
      ReleaseKeeps(Value(), id, explained);
      if !explained {
        return Refused(UNEXPLAINED);
      }
      if id >= |reservations| {
        return NotFound;
      }
      var held := reservations[id];
      if held.status != Open {
        return AlreadyResolved(held.status);
      }
      assert Sound(held, balances, ledger);
      var restored := 0;
      if held.mode == ConsumeImmediately {
        var ms, reversible := ReversalsFor(held.takes, held.entries);
        if ms != [] {
          var posted := PostOrRollback(ms);
          if !posted.Posted? {
            return Refused(if posted.Insufficient? then NOT_RESTORED else posted.reason);
          }
          restored := reversible;
        }
      } else if held.takes != [] {
        ReleaseReserved(held.takes);
        restored := Total(held.takes);
      } else {
        assert balances == LowerReserved(balances, held.takes);
      }
      SetStatus(id, Released);
      reply := ReleasedUnits(restored);
    }

    // -------------------------------------------------------------------------------------
    // Migrating and switching
    // -------------------------------------------------------------------------------------

    method MigrateReservation(id: nat, to: Mode) returns (reply: Reply)
      requires Valid()
      modifies this`balances, this`ledger, this`reservations
      ensures mode == old(mode)
      ensures Valid()
      ensures Transition(Value(), reply) == MigrateStep(old(Value()), id, to)
    {
      MigrateConserves(Value(), id, to);
      if id >= |reservations| || reservations[id].status != Open || reservations[id].mode == to {
        return NotMigrated;
      }
      var held := reservations[id];
      if held.takes == [] {
        reservations := reservations[id := held.(mode := to)];
        return Migrated;
      }
      if to == ConsumeImmediately {
        reply := ConsumeHeld(id);
      } else {
        reply := ReserveConsumed(id);
      }
    }

    method ConsumeHeld(id: nat) returns (reply: Reply)
      requires Valid() && id < |reservations| && Holds(reservations[id]) && reservations[id].takes != []
      modifies this`balances, this`ledger, this`reservations
      ensures mode == old(mode)
      ensures Transition(Value(), reply) == MigrateStep(old(Value()), id, ConsumeImmediately)
    {
      var held := reservations[id];
      assert Sound(held, balances, ledger);
      ShipHeld(Value(), id);
      if Fits(balances, held.takes) {
        ShippedBalances(balances, |ledger|, held.takes);
      }
      var posted := PostOrRollback(Shipments(held.takes));
      if !posted.Posted? {
        return NotMigrated;
      }
      ReleaseReserved(held.takes);
      SetRecording(id, ConsumeImmediately, Somes(posted.entryIds));
      reply := Migrated;
    }

    method ReserveConsumed(id: nat) returns (reply: Reply)
      requires Valid() && id < |reservations| && reservations[id].takes != []
      requires reservations[id].status == Open && reservations[id].mode == ConsumeImmediately
      modifies this`balances, this`ledger, this`reservations
      ensures mode == old(mode)
      ensures Transition(Value(), reply) == MigrateStep(old(Value()), id, ReserveUntilFulfilled)
    {
      var held := reservations[id];
      ghost var was := Value();
      assert Sound(held, balances, ledger);
      var ms, _ := ReversalsFor(held.takes, held.entries);
      if ms != [] {
        var posted := PostOrRollback(ms);
        if !posted.Posted? {
          return NotMigrated;
        }
      }
      ReadyToReserve(was, id, ms, Moved(was.balances, ms));
      MigrateToReservationIs(was, id);
      AddReserved(held.takes);
      SetRecording(id, ReserveUntilFulfilled, Nones(|held.takes|));
      reply := Migrated;
    }

    /** How a reservation is recorded from now on, and the entries that consumed its units. */
    method SetRecording(id: nat, mode: Mode, entries: seq<Option<nat>>)
      requires id < |reservations|
      modifies this`reservations
      ensures balances == old(balances) && ledger == old(ledger) && this.mode == old(this.mode)
      ensures reservations == old(reservations)[id := old(reservations)[id].(mode := mode, entries := entries)]
    {
      reservations := reservations[id := reservations[id].(mode := mode, entries := entries)];
    }

    /** What a confirmed switch does, given the open reservations in the order they were read. */
    method SwitchConsumptionMode(to: Mode, migrateOpen: bool, open: seq<nat>) returns (outcome: SwitchOutcome)
      requires Valid()
      requires Distinct(open)
      requires forall id: nat :: id in open <==> id < |reservations| && reservations[id].status == Open
      modifies this
      ensures Valid()
      ensures SwitchTransition(Value(), outcome) == SwitchStep(old(Value()), to, migrateOpen, open)
    {
      if mode == to {
        return Same;
      }
      if open != [] && !migrateOpen {
        return NeedsMigration(|open|);
      }
      for i := 0 to |open|
        invariant Valid() && mode == old(mode)
        invariant MigrateAll(Value(), open[i..], to) == MigrateAll(old(Value()), open, to)
      {
        var _ := MigrateReservation(open[i], to);
        assert open[i..][1..] == open[i + 1..];
      }
      mode := to;
      return Switched;
    }

    // -------------------------------------------------------------------------------------
    // Adjusting, transferring, reversing
    // -------------------------------------------------------------------------------------

    /** One movement: either what went wrong, or the entry written and the units now on hand. */
    method PostOne(m: Movement) returns (failure: Option<Reply>, entryId: nat, onHand: int)
      requires Checked(balances)
      modifies this`balances, this`ledger, this`reservations
      ensures mode == old(mode)
      ensures reservations == old(reservations)
      ensures var p := PostingOf(old(balances), |old(ledger)|, [m]);
              if p.Posted? then
                && failure.None? && entryId == |old(ledger)|
                && onHand == After(old(balances), [m], m.key) == At(old(balances), m.key).onHand + m.delta
                && balances == Moved(old(balances), [m]) && ledger == old(ledger) + [m]
              else failure == Some(FailureOf(p)) && balances == old(balances) && ledger == old(ledger)
    {
      failure, entryId, onHand := None, 0, 0;
      var posted := PostOrRollback([m]);
      if !posted.Posted? {
        failure := Some(FailureOf(posted));
        return;
      }
      SingleEntry(old(balances), |old(ledger)|, m);
      entryId, onHand := posted.entryIds[0], posted.resulting[0].onHand;
    }

    method ApplyAdjustment(k: Key, change: Change, explained: bool) returns (reply: Reply)
      requires Valid()
      modifies this
      ensures Valid()
      ensures Transition(Value(), reply) == AdjustStep(old(Value()), k, change, explained)
    {
      AdjustKeeps(Value(), k, change, explained);
      if change.Absolute? && change.quantity < 0 {
        return Refused(BAD_COUNT);
      }
      if !explained {
        return Refused(UNEXPLAINED);
      }
      reply := AdjustLocked(k, change);
    }

    /** The delta of an absolute count is worked out after the row is locked. */
    method AdjustLocked(k: Key, change: Change) returns (reply: Reply)
      requires Checked(balances) && !(change.Absolute? && change.quantity < 0)
      modifies this`balances, this`ledger, this`reservations
      ensures mode == old(mode)
      ensures Transition(Value(), reply) == AdjustStep(old(Value()), k, change, true)
    {
      var held := LockBalances([k]);
      var onHand := if k in held then held[k].onHand else 0;
      var d := DeltaFor(change, onHand);
      if d == 0 {
        return Unchanged(onHand);
      }
      var failure, entryId, resulting := PostOne(Movement(k, Adjustment, d, None));
      reply := if failure.Some? then failure.value else Adjusted(entryId, resulting);
    }

    method TransferStock(item: nat, source: nat, destination: nat, quantity: int) returns (reply: Reply)
      requires Valid()
      modifies this
      ensures Valid()
      ensures Transition(Value(), reply) == TransferStep(old(Value()), item, source, destination, quantity)
    {
      TransferKeeps(Value(), item, source, destination, quantity);
      if quantity <= 0 {
        return Refused(NOT_POSITIVE);
      }
      if source == destination {
        return Refused(SAME_LOCATION);
      }
      var posted := PostOrRollback(TransferMovements(item, source, destination, quantity));
      if !posted.Posted? {
        return FailureOf(posted);
      }
      reply := Transferred(posted.entryIds);
    }

    method ReverseEntry(entryId: nat, explained: bool) returns (reply: Reply)
      requires Valid()
      modifies this
      ensures Valid()
      ensures Transition(Value(), reply) == ReverseStep(old(Value()), entryId, explained)
    {
      ReverseKeeps(Value(), entryId, explained);
      if !explained {
        return Refused(UNEXPLAINED);
      }
      if entryId >= |ledger| {
        return NotFound;
      }
      var original := ledger[entryId];
      if original.kind == Reversal {
        return Refused(REVERSAL_OF_REVERSAL);
      }
      var existing := FindReversal(ledger, entryId);
      if existing.Some? {
        return AlreadyReversed(existing.value);
      }
      var failure, made, resulting := PostOne(Movement(original.key, Reversal, -original.delta, Some(entryId)));
      reply := if failure.Some? then failure.value else Reversed(made, resulting);
    }
  }

  /** A posting of one movement reports one entry and one balance. */
  lemma SingleEntry(b: Balances, size: nat, m: Movement)
    requires PostingOf(b, size, [m]).Posted?
    ensures var p := PostingOf(b, size, [m]);
            && p.entryIds == [size]
            && p.resulting == [Resulting(m.key, At(b, m.key).onHand + m.delta, At(b, m.key).reserved)]
            && After(b, [m], m.key) == At(b, m.key).onHand + m.delta
  {
    var ms := [m];
    assert KeysOf(ms) == [m.key] && ms[..0] == [];
    assert LockOrderOf([m.key]) == [m.key] by {
      assert [m.key][..0] == [];
    }
    ResultingAll(b, ms, [m.key]);
    assert NetAt(ms, m.key) == m.delta;
  }
}
