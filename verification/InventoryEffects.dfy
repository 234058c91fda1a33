/**
  What each inventory transaction does, in terms of balances, ledger entries and reservations alone:
  which way units move, how many, under which entries, and exactly when it is refused.
 */
module InventoryEffects {
  import opened Stock
  import opened Allocation
  import opened Ledger
  import opened Reservations
  import opened InventoryInvariant
  import opened InventoryRuns

  // ---------------------------------------------------------------------------------------
  // What a refused posting answers
  // ---------------------------------------------------------------------------------------

  lemma {:induction false} ShortfallsHave(b: Balances, ms: seq<Movement>, targets: seq<Key>, x: Shortfall)
    ensures x in ShortfallsIn(b, ms, targets) <==>
              x.key in targets && (var left := At(b, x.key).onHand + NetAt(ms, x.key);
                                   left < 0 && x == Shortfall(x.key, At(b, x.key).onHand, -NetAt(ms, x.key), -left))
  {
    if targets != [] {
      var n := |targets| - 1;
      ShortfallsHave(b, ms, targets[..n], x);
      assert x.key in targets <==> x.key in targets[..n] || x.key == targets[n];
    }
  }

  /** Units are missing somewhere, and no key would merely fall below what is reserved there. */
  ghost predicate RunsShort(b: Balances, ms: seq<Movement>) {
    && WellFormed(ms)
    && (forall k :: k in Touched(ms) ==> !(0 <= At(b, k).onHand + NetAt(ms, k) < At(b, k).reserved))
    && (exists k :: k in Touched(ms) && At(b, k).onHand + NetAt(ms, k) < 0)
  }

  /** A posting is answered with shortfalls exactly when it runs short, and then with one for each key
      that does: what is there, what was asked for, and the difference. */
  lemma ShortExactly(b: Balances, size: nat, ms: seq<Movement>, x: Shortfall)
    ensures var p := PostingOf(b, size, ms);
            && (p.Insufficient? <==> RunsShort(b, ms))
            && (p.Insufficient? ==>
                  (x in p.shortfalls <==>
                     x.key in Touched(ms)
                     && (var left := At(b, x.key).onHand + NetAt(ms, x.key);
                         left < 0 && x == Shortfall(x.key, At(b, x.key).onHand, -NetAt(ms, x.key), -left))))
  {
    var targets := LockOrderOf(KeysOf(ms));
    NoFaultMeans(ms);
    TargetsAreTouched(ms);
    NoShortfallMeans(b, ms, targets);
    ShortfallsHave(b, ms, targets, x);
    assert forall k :: LeavesBelowReserved(b, ms, k) <==> 0 <= At(b, k).onHand + NetAt(ms, k) < At(b, k).reserved;
  }

  /** How taking `-d` units from `k` is refused: short by what is not there, or, when it is there, because
      fewer would be left than are reserved. */
  ghost predicate RefusedAt(b: Balances, k: Key, d: int, reply: Reply) {
    var left := At(b, k).onHand + d;
    if left < 0 then reply.Short? && forall x :: x in reply.shortfalls <==> x == Shortfall(k, At(b, k).onHand, -d, -left)
    else reply == Refused(BELOW_RESERVED)
  }

  /** A posting that takes units from one key only, and is refused. */
  lemma RefusalIs(b: Balances, size: nat, ms: seq<Movement>, k: Key, d: int)
    requires Checked(b) && WellFormed(ms) && !PostingOf(b, size, ms).Posted?
    requires k in Touched(ms) && NetAt(ms, k) == d && forall l :: l in Touched(ms) && l != k ==> NetAt(ms, l) >= 0
    ensures RefusedAt(b, k, d, FailureOf(PostingOf(b, size, ms)))
  {
    var left := At(b, k).onHand + d;
    PostedExactly(b, size, ms);
    NoFaultMeans(ms);
    forall l | l in Touched(ms) && l != k ensures At(b, l).onHand + NetAt(ms, l) >= At(b, l).reserved {
    }
    forall x ensures PostingOf(b, size, ms).Insufficient? ==>
                       (x in PostingOf(b, size, ms).shortfalls <==> x == Shortfall(k, At(b, k).onHand, -d, -left)) {
      ShortExactly(b, size, ms, x);
    }
    ShortExactly(b, size, ms, Shortfall(k, 0, 0, 0));
  }

  // ---------------------------------------------------------------------------------------
  // Transferring, adjusting, reversing
  // ---------------------------------------------------------------------------------------

  /** Nothing but on-hand figures and the ledger changes: `k` gains `d` units, `l` gains `e`. */
  ghost predicate UnitsMoved(s: State, next: State, k: Key, d: int, l: Key, e: int) {
    && next.reservations == s.reservations && next.mode == s.mode
    && forall x :: At(next.balances, x)
                == Balance(At(s.balances, x).onHand + (if x == k then d else 0) + (if x == l then e else 0), At(s.balances, x).reserved)
  }

  lemma {:induction false} NetOfTwo(a: Movement, b: Movement, k: Key)
    ensures NetAt([a, b], k) == (if a.key == k then a.delta else 0) + (if b.key == k then b.delta else 0)
  {
    assert [a, b][..1] == [a] && [a][..0] == [];
    assert NetAt([a], k) == if a.key == k then a.delta else 0;
  }

  /** A posting of two movements at different keys. */
  lemma {:induction false} TwoMovements(b: Balances, size: nat, x: Movement, y: Movement)
    requires Checked(b) && x.key != y.key && FaultIn(x).None? && FaultIn(y).None?
    ensures PostingOf(b, size, [x, y]).Posted? <==> Free(b, x.key) + x.delta >= 0 && Free(b, y.key) + y.delta >= 0
    ensures PostingOf(b, size, [x, y]).Posted? ==>
              && PostingOf(b, size, [x, y]).entryIds == [size, size + 1]
              && forall k :: At(Moved(b, [x, y]), k)
                          == Balance(At(b, k).onHand + (if k == x.key then x.delta else 0) + (if k == y.key then y.delta else 0),
                                     At(b, k).reserved)
  {
    var ms := [x, y];
    PostedExactly(b, size, ms);
    forall k ensures NetAt(ms, k) == (if x.key == k then x.delta else 0) + (if y.key == k then y.delta else 0) {
      NetOfTwo(x, y, k);
    }
    assert ms[0] in ms && ms[1] in ms;
    assert Touched(ms) == {x.key, y.key};
    if PostingOf(b, size, ms).Posted? {
      PostedBalances(b, size, ms);
      assert Ids(size, 2) == [size, size + 1];
    }
  }

  /** Units leave the source and arrive at the destination, under two entries; the transfer goes through
      exactly when the source has that many units nobody has reserved. */
  lemma TransferredExactly(s: State, item: nat, source: nat, destination: nat, quantity: int)
    requires Inv(s)
    ensures var t := TransferStep(s, item, source, destination, quantity);
            && (t.reply.Transferred? <==>
                  quantity > 0 && source != destination && Free(s.balances, Key(item, source)) >= quantity)
            && (!t.reply.Transferred? ==> t.next == s)
            && (quantity > 0 && source != destination && !t.reply.Transferred? ==>
                  RefusedAt(s.balances, Key(item, source), -quantity, t.reply))
            && (quantity <= 0 ==> t.reply == Refused(NOT_POSITIVE))
            && (quantity > 0 && source == destination ==> t.reply == Refused(SAME_LOCATION))
            && (t.reply.Transferred? ==>
                  && t.reply.entryIds == [|s.ledger|, |s.ledger| + 1]
                  && t.next.ledger == s.ledger + [Movement(Key(item, source), TransferOut, -quantity, None),
                                                  Movement(Key(item, destination), TransferIn, quantity, None)]
                  && UnitsMoved(s, t.next, Key(item, source), -quantity, Key(item, destination), quantity))
  {
    if quantity > 0 && source != destination {
      var out := Movement(Key(item, source), TransferOut, -quantity, None);
      var into := Movement(Key(item, destination), TransferIn, quantity, None);
      assert TransferMovements(item, source, destination, quantity) == [out, into];
      assert Free(s.balances, Key(item, destination)) >= 0;
      TwoMovements(s.balances, |s.ledger|, out, into);
      if !PostingOf(s.balances, |s.ledger|, [out, into]).Posted? {
        TakenFromOne(s.balances, |s.ledger|, out, into);
      }
    }
  }

  lemma TakenFromOne(b: Balances, size: nat, out: Movement, into: Movement)
    requires Checked(b) && out.key != into.key && FaultIn(out).None? && FaultIn(into).None? && into.delta > 0
    requires !PostingOf(b, size, [out, into]).Posted?
    ensures RefusedAt(b, out.key, out.delta, FailureOf(PostingOf(b, size, [out, into])))
  {
    var ms := [out, into];
    assert ms[0] in ms && ms[1] in ms && Touched(ms) == {out.key, into.key};
    NetOfTwo(out, into, out.key);
    NetOfTwo(out, into, into.key);
    RefusalIs(b, size, ms, out.key, out.delta);
  }

  lemma {:induction false} SingleNet(m: Movement)
    ensures NetAt([m], m.key) == m.delta
  {
    assert [m][..0] == [];
  }

  /** Posting one well-formed movement. */
  lemma OnePosting(s: State, m: Movement)
    requires Inv(s) && FaultIn(m).None?
    ensures PostingOf(s.balances, |s.ledger|, [m]).Posted? <==> Free(s.balances, m.key) + m.delta >= 0
    ensures After(s.balances, [m], m.key) == At(s.balances, m.key).onHand + m.delta
    ensures !PostingOf(s.balances, |s.ledger|, [m]).Posted? ==>
              RefusedAt(s.balances, m.key, m.delta, FailureOf(PostingOf(s.balances, |s.ledger|, [m])))
    ensures PostingOf(s.balances, |s.ledger|, [m]).Posted? ==>
              UnitsMoved(s, s.(balances := Moved(s.balances, [m]), ledger := s.ledger + [m]), m.key, m.delta, m.key, 0)
  {
    OneMovement(s.balances, |s.ledger|, m);
    SingleNet(m);
    if !PostingOf(s.balances, |s.ledger|, [m]).Posted? {
      assert m in [m];
      RefusalIs(s.balances, |s.ledger|, [m], m.key, m.delta);
    }
  }

  /** An adjustment that brings `k` from what it has to `after`. */
  ghost predicate BroughtTo(s: State, k: Key, after: int, t: Transition) {
    var before := At(s.balances, k);
    && (t.reply.Adjusted? <==> after != before.onHand && after >= before.reserved)
    && (t.reply == Unchanged(before.onHand) <==> after == before.onHand)
    && (!t.reply.Adjusted? ==> t.next == s)
    && (after < before.reserved && after != before.onHand ==> RefusedAt(s.balances, k, after - before.onHand, t.reply))
    && (t.reply.Adjusted? ==>
          && t.reply == Adjusted(|s.ledger|, after)
          && t.next.ledger == s.ledger + [Movement(k, Adjustment, after - before.onHand, None)]
          && UnitsMoved(s, t.next, k, after - before.onHand, k, 0))
  }

  lemma AdjustedBy(s: State, k: Key, d: int)
    requires Inv(s)
    ensures BroughtTo(s, k, At(s.balances, k).onHand + d, AdjustBy(s, k, d))
  {
    if d != 0 {
      OnePosting(s, Movement(k, Adjustment, d, None));
    }
  }

  lemma AdjustIs(s: State, k: Key, change: Change, d: int)
    requires !(change.Absolute? && change.quantity < 0)
    requires d == if change.Absolute? then change.quantity - At(s.balances, k).onHand else change.quantityDelta
    ensures AdjustStep(s, k, change, true) == AdjustBy(s, k, d)
  {
  }

  /** The figure a change is to leave. */
  function Figure(change: Change, onHand: int): int {
    if change.Absolute? then change.quantity else onHand + change.quantityDelta
  }

  /** A count sets the figure and a delta changes it by its sign, under one entry; the adjustment goes
      through exactly when it changes something and leaves what is reserved there covered, and one that
      changes nothing writes nothing. Without a reason, or for a negative count, nothing happens. */
  lemma AdjustedExactly(s: State, k: Key, change: Change, explained: bool)
    requires Inv(s)
    ensures var t := AdjustStep(s, k, change, explained);
            if change.Absolute? && change.quantity < 0 then t == Transition(s, Refused(BAD_COUNT))
            else if !explained then t == Transition(s, Refused(UNEXPLAINED))
            else BroughtTo(s, k, Figure(change, At(s.balances, k).onHand), t)
  {
    if explained && !(change.Absolute? && change.quantity < 0) {
      var d := Figure(change, At(s.balances, k).onHand) - At(s.balances, k).onHand;
      AdjustIs(s, k, change, d);
      AdjustedBy(s, k, d);
    }
  }

  /** Whether the entry may be reversed by hand. */
  ghost predicate MayBeReversed(s: State, entryId: nat) {
    && entryId < |s.ledger| && s.ledger[entryId].kind != Reversal
    && (forall i :: 0 <= i < |s.ledger| ==> s.ledger[i].reversalOf != Some(entryId))
    && Free(s.balances, s.ledger[entryId].key) >= s.ledger[entryId].delta
  }

  /** What a reversal that does not go through is answered. */
  ghost predicate NotReversed(s: State, entryId: nat, explained: bool, reply: Reply) {
    if !explained then reply == Refused(UNEXPLAINED)
    else if entryId >= |s.ledger| then reply == NotFound
    else if s.ledger[entryId].kind == Reversal then reply == Refused(REVERSAL_OF_REVERSAL)
    else if exists i :: 0 <= i < |s.ledger| && s.ledger[i].reversalOf == Some(entryId) then
      reply.AlreadyReversed? && reply.entryId < |s.ledger| && s.ledger[reply.entryId].reversalOf == Some(entryId)
    else RefusedAt(s.balances, s.ledger[entryId].key, -s.ledger[entryId].delta, reply)
  }

  lemma {:induction false} Reversing(s: State, entryId: nat)
    requires Inv(s) && entryId < |s.ledger| && s.ledger[entryId].kind != Reversal
    requires FindReversal(s.ledger, entryId).None?
    ensures var t, m := ReverseStep(s, entryId, true), s.ledger[entryId];
            && (t.reply.Reversed? <==> Free(s.balances, m.key) >= m.delta)
            && (!t.reply.Reversed? ==> t.next == s && RefusedAt(s.balances, m.key, -m.delta, t.reply))
            && (t.reply.Reversed? ==>
                  && t.reply == Reversed(|s.ledger|, At(s.balances, m.key).onHand - m.delta)
                  && t.next.ledger == s.ledger + [Movement(m.key, Reversal, -m.delta, Some(entryId))]
                  && UnitsMoved(s, t.next, m.key, -m.delta, m.key, 0))
  {
    assert FaultIn(s.ledger[entryId]).None?;
    var m := Movement(s.ledger[entryId].key, Reversal, -s.ledger[entryId].delta, Some(entryId));
    OnePosting(s, m);
    ReverseIs(s, entryId, m);
  }

  lemma {:induction false} ReverseIs(s: State, entryId: nat, m: Movement)
    requires entryId < |s.ledger| && s.ledger[entryId].kind != Reversal && FindReversal(s.ledger, entryId).None?
    requires m == Movement(s.ledger[entryId].key, Reversal, -s.ledger[entryId].delta, Some(entryId))
    ensures var p := PostingOf(s.balances, |s.ledger|, [m]);
            ReverseStep(s, entryId, true) ==
              if !p.Posted? then Transition(s, FailureOf(p))
              else Transition(s.(balances := Moved(s.balances, [m]), ledger := s.ledger + [m]),
                              Reversed(|s.ledger|, After(s.balances, [m], m.key)))
  {
  }

  /** The entry's units go back where they came from, under an entry that names it; exactly when there
      is a reason, the entry exists, is no reversal, none reverses it, and what it put there is free. */
  lemma {:induction false} ReversedExactly(s: State, entryId: nat, explained: bool)
    requires Inv(s)
    ensures var t := ReverseStep(s, entryId, explained);
            && (t.reply.Reversed? <==> explained && MayBeReversed(s, entryId))
            && (!t.reply.Reversed? ==> t.next == s)
            && (t.reply.Reversed? ==>
                  var m := s.ledger[entryId];
                  && t.reply == Reversed(|s.ledger|, At(s.balances, m.key).onHand - m.delta)
                  && t.next.ledger == s.ledger + [Movement(m.key, Reversal, -m.delta, Some(entryId))]
                  && UnitsMoved(s, t.next, m.key, -m.delta, m.key, 0))
            && (!t.reply.Reversed? ==> NotReversed(s, entryId, explained, t.reply))
  {
    if explained && entryId < |s.ledger| && s.ledger[entryId].kind != Reversal && FindReversal(s.ledger, entryId).None? {
      Reversing(s, entryId);
    }
  }

  // ---------------------------------------------------------------------------------------
  // Fulfilling, releasing, migrating
  // ---------------------------------------------------------------------------------------

  /** One shipment entry per allocation has been added. */
  ghost predicate ShippedIn(before: seq<Movement>, after: seq<Movement>, takes: seq<Take>) {
    && before <= after && |after| == |before| + |takes|
    && forall i :: 0 <= i < |takes| ==> after[|before| + i] == Movement(takes[i].key, Shipment, -takes[i].quantity, None)
  }

  /** One entry per allocation has been added that undoes the entry it left by. */
  ghost predicate UndoneIn(before: seq<Movement>, after: seq<Movement>, r: Reservation) {
    && before <= after && |after| == |before| + |r.takes| && |r.entries| == |r.takes|
    && forall i :: 0 <= i < |r.takes| ==>
         after[|before| + i] == Movement(r.takes[i].key, Reversal, r.takes[i].quantity, r.entries[i])
  }

  /** `after` is `b` with the units of `takes` no longer reserved. */
  ghost predicate Unreserved(b: Balances, after: Balances, takes: seq<Take>) {
    forall k :: At(after, k) == Balance(At(b, k).onHand, At(b, k).reserved - QtyAt(takes, k))
  }

  /** `after` is `b` with the units of `takes` on hand again, and reserved. */
  ghost predicate Refilled(b: Balances, after: Balances, takes: seq<Take>) {
    forall k :: At(after, k) == Balance(At(b, k).onHand + QtyAt(takes, k), At(b, k).reserved + QtyAt(takes, k))
  }

  /** Answered without doing anything: there is no such reservation, or it is not open. */
  ghost predicate NothingOpen(s: State, id: nat, t: Transition) {
    && t.next == s
    && t.reply == if id >= |s.reservations| then NotFound else AlreadyResolved(s.reservations[id].status)
  }

  /** Fulfilling an order ships what it holds and takes it out of the reserved figures, one entry for
      each allocation; what was shipped when it was recorded is not shipped again. */
  lemma FulfilledEffect(s: State, id: nat)
    requires Inv(s)
    ensures var t := FulfillStep(s, id);
            if id >= |s.reservations| || s.reservations[id].status != Open then NothingOpen(s, id, t)
            else
              var r := s.reservations[id];
              && (t.reply == Fulfilled <==> r.mode == ReserveUntilFulfilled ==> Fits(s.balances, r.takes))
              && (t.reply != Fulfilled ==> t == Transition(s, Refused(BELOW_RESERVED)))
              && (t.reply == Fulfilled ==>
                    && t.next.mode == s.mode
                    && t.next.reservations == s.reservations[id := r.(status := Consumed)]
                    && if r.mode == ReserveUntilFulfilled
                       then Emptied(s.balances, t.next.balances, r.takes) && ShippedIn(s.ledger, t.next.ledger, r.takes)
                       else t.next.balances == s.balances && t.next.ledger == s.ledger)
  {
    if id < |s.reservations| && Holds(s.reservations[id]) {
      FulfilledExactly(s, id);
      if s.reservations[id].takes != [] {
        ShipHeld(s, id);
      }
    }
  }

  /** Releasing an order frees what it reserved or puts back what it consumed, one entry for each
      allocation, naming the entry it undoes; it needs a reason and an open reservation, and no more. */
  lemma ReleasedEffect(s: State, id: nat, explained: bool)
    requires Inv(s)
    ensures var t := ReleaseStep(s, id, explained);
            if !explained then t == Transition(s, Refused(UNEXPLAINED))
            else if id >= |s.reservations| || s.reservations[id].status != Open then NothingOpen(s, id, t)
            else
              var r := s.reservations[id];
              && t.reply == ReleasedUnits(TotalQty(r.takes))
              && t.next.mode == s.mode
              && t.next.reservations == s.reservations[id := r.(status := Released)]
              && if r.mode == ConsumeImmediately
                 then Restocked(s.balances, t.next.balances, r.takes) && UndoneIn(s.ledger, t.next.ledger, r)
                 else Unreserved(s.balances, t.next.balances, r.takes) && t.next.ledger == s.ledger
  {
    if id < |s.reservations| && s.reservations[id].status == Open {
      var r := s.reservations[id];
      assert Sound(r, s.balances, s.ledger);
      ReleaseRestores(s, id);
      if r.mode == ConsumeImmediately {
        ReversalsIn(s.ledger, r);
        if r.takes != [] {
          RestoredBalances(s, id);
        }
      } else {
        HeldIsReserved(s, id);
        LoweredBalances(s.balances, r.takes);
      }
    }
  }

  /** The reservation is in the other mode, with as many entries as allocations; every other is as it was. */
  ghost predicate Rerecorded(s: State, id: nat, next: State, to: Mode)
    requires id < |s.reservations|
  {
    && |next.reservations| == |s.reservations|
    && (forall j :: 0 <= j < |s.reservations| && j != id ==> next.reservations[j] == s.reservations[j])
    && SameButRecording(s.reservations[id], next.reservations[id])
    && next.reservations[id].mode == to
    && |next.reservations[id].entries| == |s.reservations[id].takes|
  }

  /** The reservation's units have left both figures under one shipment each, which it refers to. */
  ghost predicate NowOut(s: State, id: nat, next: State)
    requires id < |s.reservations|
  {
    var r := s.reservations[id];
    && next.mode == s.mode
    && Rerecorded(s, id, next, ConsumeImmediately)
    && (forall i :: 0 <= i < |r.takes| ==> next.reservations[id].entries[i] == Some(|s.ledger| + i))
    && Emptied(s.balances, next.balances, r.takes)
    && ShippedIn(s.ledger, next.ledger, r.takes)
  }

  /** The reservation's units are back in both figures, each shipment undone. */
  ghost predicate NowBack(s: State, id: nat, next: State)
    requires id < |s.reservations|
  {
    var r := s.reservations[id];
    && next.mode == s.mode
    && Rerecorded(s, id, next, ReserveUntilFulfilled)
    && (forall i :: 0 <= i < |r.takes| ==> next.reservations[id].entries[i] == None)
    && Refilled(s.balances, next.balances, r.takes)
    && UndoneIn(s.ledger, next.ledger, r)
  }

  lemma ShipmentsIn(ledger: seq<Movement>, takes: seq<Take>)
    ensures ShippedIn(ledger, ledger + Shipments(takes), takes)
  {
  }

  lemma ReversalsIn(ledger: seq<Movement>, r: Reservation)
    requires |r.takes| == |r.entries| && forall i :: 0 <= i < |r.entries| ==> r.entries[i].Some?
    ensures UndoneIn(ledger, ledger + Reversals(r.takes, r.entries), r)
  {
    ReversalsAll(r.takes, r.entries);
  }

  lemma ConsumedIsRerecorded(s: State, id: nat)
    requires id < |s.reservations|
    ensures Rerecorded(s, id, ConsumedState(s, id), ConsumeImmediately)
    ensures forall i :: 0 <= i < |s.reservations[id].takes| ==>
              ConsumedState(s, id).reservations[id].entries[i] == Some(|s.ledger| + i)
  {
  }

  lemma NothingToMove(s: State, id: nat, to: Mode)
    requires Inv(s) && id < |s.reservations| && s.reservations[id].takes == []
    requires s.reservations[id].status == Open && s.reservations[id].mode != to
    ensures MigrateStep(s, id, to).reply == Migrated
    ensures var next := MigrateStep(s, id, to).next;
            if to == ConsumeImmediately then NowOut(s, id, next) else NowBack(s, id, next)
  {
    var r := s.reservations[id];
    assert Sound(r, s.balances, s.ledger);
  }

  lemma ConsumedIsOut(s: State, id: nat)
    requires Inv(s) && id < |s.reservations| && Holds(s.reservations[id]) && s.reservations[id].takes != []
    requires Fits(s.balances, s.reservations[id].takes)
    ensures NowOut(s, id, ConsumedState(s, id))
  {
    ShipHeld(s, id);
    ShipmentsIn(s.ledger, s.reservations[id].takes);
    ConsumedIsRerecorded(s, id);
  }

  lemma RestoredRefills(s: State, id: nat)
    requires Inv(s) && id < |s.reservations| && s.reservations[id].takes != []
    requires s.reservations[id].status == Open && s.reservations[id].mode == ConsumeImmediately
    ensures |s.reservations[id].takes| == |s.reservations[id].entries|
    ensures Refilled(s.balances, RestoredState(s, id).balances, s.reservations[id].takes)
  {
    assert Sound(s.reservations[id], s.balances, s.ledger);
    var ms, moved := Restored(s, id);
    ReservedAgain(s.balances, moved, s.reservations[id].takes);
  }

  lemma RestoredIsBack(s: State, id: nat)
    requires Inv(s) && id < |s.reservations| && s.reservations[id].takes != []
    requires s.reservations[id].status == Open && s.reservations[id].mode == ConsumeImmediately
    ensures |s.reservations[id].takes| == |s.reservations[id].entries|
    ensures NowBack(s, id, RestoredState(s, id))
  {
    var r := s.reservations[id];
    assert Sound(r, s.balances, s.ledger);
    RestoredRefills(s, id);
    ReversalsIn(s.ledger, r);
  }

  /** Migrating moves the units of one open reservation out of both figures or back into both. Anything
      else, and a migration that does not fit, changes nothing. */
  lemma MigratedEffect(s: State, id: nat, to: Mode)
    requires Inv(s)
    ensures var t := MigrateStep(s, id, to);
            && (t.reply == Migrated <==>
                  && id < |s.reservations| && s.reservations[id].status == Open && s.reservations[id].mode != to
                  && (to == ReserveUntilFulfilled || Fits(s.balances, s.reservations[id].takes)))
            && (t.reply != Migrated ==> t == Transition(s, NotMigrated))
            && (t.reply == Migrated ==> if to == ConsumeImmediately then NowOut(s, id, t.next) else NowBack(s, id, t.next))
  {
    if id < |s.reservations| && s.reservations[id].status == Open && s.reservations[id].mode != to {
      assert Sound(s.reservations[id], s.balances, s.ledger);
      if s.reservations[id].takes == [] {
        NothingToMove(s, id, to);
      } else if to == ConsumeImmediately {
        MigrateToConsumptionIs(s, id);
        if Fits(s.balances, s.reservations[id].takes) {
          ConsumedIsOut(s, id);
        }
      } else {
        MigrateToReservationIs(s, id);
        RestoredIsBack(s, id);
      }
    }
  }

  // ---------------------------------------------------------------------------------------
  // Reserving
  // ---------------------------------------------------------------------------------------

  /** The safety stock in force at a key: the location's own figure before the item's, and the item's
      before the business's. */
  ghost predicate IsFloor(levels: SafetyLevels, k: Key, floor: nat) {
    && (k in levels.locationOverride ==> floor == levels.locationOverride[k])
    && (k !in levels.locationOverride && k.item in levels.itemOverride ==> floor == levels.itemOverride[k.item])
    && (k !in levels.locationOverride && k.item !in levels.itemOverride ==> floor == levels.businessDefault)
  }

  /** Taking `n` units leaves what is reserved and the safety stock where they are. */
  ghost predicate Spare(b: Balances, levels: SafetyLevels, k: Key, n: int) {
    n <= 0 || (k in b && forall floor: nat :: IsFloor(levels, k, floor) ==> n + floor + b[k].reserved <= b[k].onHand)
  }

  lemma AvailableExactly(b: Balances, r: Request, components: seq<Component>, item: nat, location: nat, n: nat)
    requires location in r.order && HasItem(components, item)
    ensures n <= Available(AvailableIn(b, r.safety, components, r.order), item, location)
            <==> Spare(b, r.safety, Key(item, location), n)
  {
    assert IsFloor(r.safety, Key(item, location), SafetyStock(r.safety, Key(item, location)));
  }

  lemma OnlyThere(b: Balances, r: Request, components: seq<Component>, item: nat, location: nat)
    ensures Available(AvailableIn(b, r.safety, components, r.order), item, location) > 0 ==>
              location in r.order && HasItem(components, item)
  {
  }

  /** The location can supply `n` ordered units out of what may be taken there. */
  ghost predicate Suppliable(b: Balances, r: Request, components: seq<Component>, location: nat, n: nat) {
    forall c :: c in components ==> Spare(b, r.safety, Key(c.item, location), n * c.units)
  }

  lemma SuppliableIs(b: Balances, r: Request, components: seq<Component>, location: nat, n: nat)
    requires location in r.order && PositiveUnits(components)
    ensures Suppliable(b, r, components, location, n)
            <==> CanSupply(components, AvailableIn(b, r.safety, components, r.order), location, n)
  {
    forall c | c in components
      ensures Spare(b, r.safety, Key(c.item, location), n * c.units)
              <==> n * c.units <= Available(AvailableIn(b, r.safety, components, r.order), c.item, location)
    {
      AvailableExactly(b, r, components, c.item, location, n * c.units);
    }
  }

  /** `after` is `b` with the units of `takes` off the shelf. */
  ghost predicate Shipped(b: Balances, after: Balances, takes: seq<Take>) {
    forall k :: At(after, k) == Balance(At(b, k).onHand - QtyAt(takes, k), At(b, k).reserved)
  }

  /** `after` is `b` with the units of `takes` reserved. */
  ghost predicate NowHeld(b: Balances, after: Balances, takes: seq<Take>) {
    forall k :: At(after, k) == Balance(At(b, k).onHand, At(b, k).reserved + QtyAt(takes, k))
  }

  /** The units of a new reservation are shipped under one entry each, or reserved. */
  ghost predicate UnitsTaken(s: State, next: State, made: Reservation) {
    && |made.entries| == |made.takes|
    && if s.mode == ConsumeImmediately
       then && Shipped(s.balances, next.balances, made.takes) && ShippedIn(s.ledger, next.ledger, made.takes)
            && (forall i :: 0 <= i < |made.takes| ==> made.entries[i] == Some(|s.ledger| + i))
       else && NowHeld(s.balances, next.balances, made.takes) && next.ledger == s.ledger
            && (forall i :: 0 <= i < |made.takes| ==> made.entries[i] == None)
  }

  /** One open reservation more, for the line and quantity asked, in the mode in force. */
  ghost predicate LineRecorded(s: State, r: Request, t: Transition) {
    var id := |s.reservations|;
    && t.next.mode == s.mode
    && |t.next.reservations| == id + 1 && t.next.reservations[..id] == s.reservations
    && (var made := t.next.reservations[id];
        && made == Reservation(r.line, r.quantity, s.mode, Open, made.shortage, made.splitBlocked, made.takes, made.entries)
        && 0 <= made.shortage <= r.quantity
        && t.reply == Recorded(View(id, Open, s.mode, r.quantity, r.quantity - made.shortage, made.shortage, made.splitBlocked, made.takes))
        && UnitsTaken(s, t.next, made))
  }

  lemma {:induction false} UnitsShipped(s: State, next: State, made: Reservation)
    requires Inv(s) && s.mode == ConsumeImmediately && made.takes != []
    requires Allocations(made.takes, s.balances) && Fits(s.balances, made.takes)
    requires made.entries == Somes(Ids(|s.ledger|, |made.takes|))
    requires next.balances == Moved(s.balances, Shipments(made.takes)) && next.ledger == s.ledger + Shipments(made.takes)
    ensures UnitsTaken(s, next, made)
  {
    ShippedOut(s.balances, |s.ledger|, made.takes);
    ShipmentsIn(s.ledger, made.takes);
    NumberedFrom(|s.ledger|, |made.takes|);
  }

  lemma ShippedOut(b: Balances, size: nat, takes: seq<Take>)
    requires Checked(b) && Allocations(takes, b) && takes != [] && Fits(b, takes)
    ensures Shipped(b, Moved(b, Shipments(takes)), takes)
  {
    ShippedBalances(b, size, takes);
  }

  lemma NumberedFrom(first: nat, count: nat)
    ensures |Somes(Ids(first, count))| == count
    ensures forall i :: 0 <= i < count ==> Somes(Ids(first, count))[i] == Some(first + i)
  {
  }

  lemma {:induction false} UnitsReserved(s: State, next: State, made: Reservation)
    requires Inv(s) && (s.mode == ReserveUntilFulfilled || made.takes == [])
    requires Allocations(made.takes, s.balances) && made.entries == Nones(|made.takes|)
    requires forall k :: k in s.balances ==> QtyAt(made.takes, k) <= Free(s.balances, k)
    requires next.balances == RaiseReserved(s.balances, made.takes) && next.ledger == s.ledger
    ensures UnitsTaken(s, next, made)
  {
    RaisedBalances(s.balances, made.takes);
  }

  /** The reservation a plan becomes, and the balances and ledger with it. */
  lemma MadeBy(s: State, r: Request, plan: Plan) returns (made: Reservation)
    requires Inv(s) && FindLine(s.reservations, r.line).None? && r.quantity >= 1
    requires Allocations(plan.takes, s.balances) && Fits(s.balances, plan.takes) && 0 <= plan.shortage <= r.quantity
    requires forall k :: k in s.balances ==> QtyAt(plan.takes, k) <= Free(s.balances, k)
    ensures made == Reservation(r.line, r.quantity, s.mode, Open, plan.shortage, plan.splitBlocked, plan.takes, made.entries)
    ensures var t := RecordStep(s, r, plan);
            && t.next.mode == s.mode && t.next.reservations == s.reservations + [made]
            && t.reply == Recorded(ViewOf(|s.reservations|, made))
            && UnitsTaken(s, t.next, made)
  {
    if s.mode == ConsumeImmediately && plan.takes != [] {
      made := Made(s, r, plan, Somes(Ids(|s.ledger|, |plan.takes|)));
      RecordConsumed(s, r, plan);
      UnitsShipped(s, RecordStep(s, r, plan).next, made);
    } else {
      made := Made(s, r, plan, Nones(|plan.takes|));
      RecordReserved(s, r, plan);
      UnitsReserved(s, RecordStep(s, r, plan).next, made);
    }
  }

  lemma PlanIsRecorded(s: State, r: Request, components: seq<Component>, plan: Plan)
    requires Inv(s) && ValidRequest(r) && r.quantity >= 1
    requires FindLine(s.reservations, r.line).None? && r.expansion == Some(components)
    requires PlanAllocationOf(r.quantity, components, AvailableIn(s.balances, r.safety, components, r.order), r.order, r.split) == Ok(plan)
    ensures LineRecorded(s, r, RecordStep(s, r, plan))
    ensures var made := RecordStep(s, r, plan).next.reservations[|s.reservations|];
            made.takes == plan.takes && made.splitBlocked == plan.splitBlocked && made.shortage == plan.shortage == r.quantity - plan.supplied
  {
    PlanFits(s.balances, r, components, plan);
    var made := MadeBy(s, r, plan);
    assert (s.reservations + [made])[..|s.reservations|] == s.reservations;
  }

  /** What an order line is answered: refused when it is not a positive quantity, told what was recorded
      when it was recorded before, not found when there is nothing to allocate for it, and recorded
      otherwise, however little of it can be filled. */
  lemma ReserveAnswers(s: State, r: Request)
    requires Inv(s) && ValidRequest(r)
    ensures var t := ReserveStep(s, r);
            if r.quantity < 1 then t == Transition(s, Refused(NOT_WHOLE))
            else if exists i :: 0 <= i < |s.reservations| && s.reservations[i].line == r.line then
              && t.next == s && t.reply.AlreadyRecorded?
              && (var v := t.reply.reservation;
                  v.reservationId < |s.reservations|
                  && (var was := s.reservations[v.reservationId];
                      && was.line == r.line
                      && v == View(v.reservationId, was.status, was.mode, was.quantity, was.quantity - was.shortage, was.shortage,
                                   was.splitBlocked, was.takes)))
            else if r.expansion.None? then t == Transition(s, NotFound)
            else if r.expansion.value == [] then t.next == s && t.reply.Threw?
            else LineRecorded(s, r, t)
  {
    if r.quantity >= 1 && FindLine(s.reservations, r.line).None? && r.expansion.Some? {
      var components := r.expansion.value;
      var plan := PlanAllocationOf(r.quantity, components, AvailableIn(s.balances, r.safety, components, r.order), r.order, r.split);
      if plan.Ok? {
        PlanIsRecorded(s, r, components, plan.value);
      }
    }
  }

  /** What has just been recorded was planned from what may be taken. */
  lemma RecordedIsPlanned(s: State, r: Request) returns (components: seq<Component>, plan: Plan)
    requires Inv(s) && ValidRequest(r) && ReserveStep(s, r).reply.Recorded?
    ensures r.expansion == Some(components) && components != [] && PositiveUnits(components) && r.quantity >= 1
    ensures plan == PlanOf(r.quantity, components, AvailableIn(s.balances, r.safety, components, r.order), r.order, r.split)
    ensures var v := ReserveStep(s, r).reply.reservation;
            && v.takes == plan.takes && v.splitBlocked == plan.splitBlocked
            && v.supplied == plan.supplied && v.shortage == plan.shortage && v.supplied + v.shortage == r.quantity
  {
    components := r.expansion.value;
    var planned := PlanAllocationOf(r.quantity, components, AvailableIn(s.balances, r.safety, components, r.order), r.order, r.split);
    plan := planned.value;
    PlanIsRecorded(s, r, components, plan);
  }

  /** Whatever is recorded for an order, at every key it takes from the units taken, those reserved
      before and the safety stock in force all fit on the shelf; and it takes only at eligible locations
      that have a row. */
  lemma SafetyStockIsKept(s: State, r: Request, k: Key, floor: nat)
    requires Inv(s) && ValidRequest(r) && ReserveStep(s, r).reply.Recorded? && IsFloor(r.safety, k, floor)
    ensures var quantity := QtyAt(ReserveStep(s, r).reply.reservation.takes, k);
            && quantity >= 0
            && (quantity > 0 ==>
                  && k in s.balances && k.location in r.order
                  && quantity + floor <= s.balances[k].onHand - s.balances[k].reserved)
  {
    var components, plan := RecordedIsPlanned(s, r);
    var avail := AvailableIn(s.balances, r.safety, components, r.order);
    TakesWithinAvailability(r.quantity, components, avail, r.order, r.split, k);
    var quantity := QtyAt(plan.takes, k);
    if quantity > 0 {
      OnlyThere(s.balances, r, components, k.item, k.location);
      AvailableExactly(s.balances, r, components, k.item, k.location, quantity);
    }
  }

  /** With splitting, an order is filled as far as the shelves allow: whatever whole numbers of units its
      locations could supply above safety stock, it is given as many or all it asked for. */
  lemma {:induction false} SplitOrderIsFilled(s: State, r: Request, n: seq<nat>)
    requires Inv(s) && ValidRequest(r) && ReserveStep(s, r).reply.Recorded? && r.split
    requires |n| == |r.order|
    requires forall i :: 0 <= i < |n| ==> Suppliable(s.balances, r, r.expansion.value, r.order[i], n[i])
    ensures ReserveStep(s, r).reply.reservation.supplied >= Min(r.quantity, Sum(n))
  {
    var components, plan := RecordedIsPlanned(s, r);
    SuppliedAtLeast(s.balances, r, components, plan, n);
  }

  lemma SuppliedAtLeast(b: Balances, r: Request, components: seq<Component>, plan: Plan, n: seq<nat>)
    requires r.quantity >= 1 && components != [] && PositiveUnits(components) && |n| == |r.order|
    requires plan == PlanOf(r.quantity, components, AvailableIn(b, r.safety, components, r.order), r.order, true)
    requires forall i :: 0 <= i < |n| ==> Suppliable(b, r, components, r.order[i], n[i])
    ensures plan.supplied >= Min(r.quantity, Sum(n))
  {
    AllSuppliable(b, r, components, n);
    SplitIsOptimal(r.quantity, components, AvailableIn(b, r.safety, components, r.order), r.order, n);
  }

  lemma AllSuppliable(b: Balances, r: Request, components: seq<Component>, n: seq<nat>)
    requires |n| == |r.order| && PositiveUnits(components)
    requires forall i :: 0 <= i < |n| ==> Suppliable(b, r, components, r.order[i], n[i])
    ensures Feasible(components, AvailableIn(b, r.safety, components, r.order), r.order, n)
  {
    forall i | 0 <= i < |n| ensures CanSupply(components, AvailableIn(b, r.safety, components, r.order), r.order[i], n[i]) {
      SuppliableIs(b, r, components, r.order[i], n[i]);
    }
  }

  /** Without splitting: no location supplies more than the plan gives, which comes from the first that
      can supply it. */
  ghost predicate FromOne(b: Balances, r: Request, components: seq<Component>, supplied: int, takes: seq<Take>, i: nat) {
    && supplied >= 0
    && (supplied == 0 ==> takes == [])
    && (supplied > 0 ==>
          && i < |r.order| && Suppliable(b, r, components, r.order[i], supplied)
          && (forall j :: 0 <= j < i ==> !Suppliable(b, r, components, r.order[j], supplied))
          && forall take :: take in takes ==> take.key.location == r.order[i])
  }

  lemma WholeSource(b: Balances, r: Request, components: seq<Component>, plan: Plan) returns (i: nat)
    requires r.quantity >= 1 && components != [] && PositiveUnits(components)
    requires plan == PlanOf(r.quantity, components, AvailableIn(b, r.safety, components, r.order), r.order, false)
    ensures FromOne(b, r, components, plan.supplied, plan.takes, i)
  {
    var avail := AvailableIn(b, r.safety, components, r.order);
    SingleIsOptimal(r.quantity, components, avail, r.order);
    i := 0;
    if plan.supplied > 0 {
      i :| 0 <= i < |r.order| && plan.takes == TakesFor(components, r.order[i], plan.supplied)
           && CanSupply(components, avail, r.order[i], plan.supplied)
           && forall j :: 0 <= j < i ==> !CanSupply(components, avail, r.order[j], plan.supplied);
      forall j | 0 <= j <= i
        ensures Suppliable(b, r, components, r.order[j], plan.supplied) <==> CanSupply(components, avail, r.order[j], plan.supplied)
      {
        SuppliableIs(b, r, components, r.order[j], plan.supplied);
      }
    }
  }

  /** Without splitting, no location could have supplied more of the order above safety stock than it is
      given; all of it comes from one location, able to supply it, when none of higher priority is. */
  lemma WholeOrderIsFilled(s: State, r: Request, location: nat, n: nat) returns (i: nat)
    requires Inv(s) && ValidRequest(r) && ReserveStep(s, r).reply.Recorded? && !r.split
    requires location in r.order && Suppliable(s.balances, r, r.expansion.value, location, n)
    ensures var v := ReserveStep(s, r).reply.reservation;
            && v.supplied >= Min(r.quantity, n)
            && FromOne(s.balances, r, r.expansion.value, v.supplied, v.takes, i)
  {
    var components, plan := RecordedIsPlanned(s, r);
    SuppliableIs(s.balances, r, components, location, n);
    SingleIsOptimal(r.quantity, components, AvailableIn(s.balances, r.safety, components, r.order), r.order);
    i := WholeSource(s.balances, r, components, plan);
  }

  /** With splitting, a location is drawn on only once every location of higher priority has given, of
      every component, the most ordered units it could supply above safety stock. */
  lemma SplitOrderInTurn(s: State, r: Request, i: nat, j: nat, c: Component) returns (most: nat)
    requires Inv(s) && ValidRequest(r) && ReserveStep(s, r).reply.Recorded? && r.split
    requires i < j < |r.order| && c in r.expansion.value
    requires DrawsOn(ReserveStep(s, r).reply.reservation.takes, r.order[j])
    ensures QtyAt(ReserveStep(s, r).reply.reservation.takes, Key(c.item, r.order[i])) == most * c.units
    ensures Suppliable(s.balances, r, r.expansion.value, r.order[i], most)
    ensures !Suppliable(s.balances, r, r.expansion.value, r.order[i], most + 1)
  {
    var components, plan := RecordedIsPlanned(s, r);
    var avail := AvailableIn(s.balances, r.safety, components, r.order);
    EarlierGiveAll(components, avail, r.order, r.quantity, i, j, c);
    most := CapacityAt(components, avail, r.order[i]);
    CapacityIsGreatest(components, avail, r.order[i], most);
    CapacityIsGreatest(components, avail, r.order[i], most + 1);
    SuppliableIs(s.balances, r, components, r.order[i], most);
    SuppliableIs(s.balances, r, components, r.order[i], most + 1);
  }

  /** A plan over one location. */
  lemma PlanAtOne(quantity: int, components: seq<Component>, avail: Availability, location: nat, split: bool)
    requires quantity >= 1 && components != [] && PositiveUnits(components)
    ensures var plan := PlanOf(quantity, components, avail, [location], split);
            && plan.supplied == Min(quantity, CapacityAt(components, avail, location))
            && plan.takes == HereTakes(components, location, plan.supplied)
  {
    var capacity := CapacityAt(components, avail, location);
    assert [location][1..] == [];
    if split {
      var rest := quantity - Min(quantity, capacity);
      assert SplitTakes(components, avail, [], rest) == [] && SplitRemaining(components, avail, [], rest) == rest;
      assert SplitTakes(components, avail, [location], quantity) == HereTakes(components, location, Min(quantity, capacity)) + [];
    } else if capacity < quantity {
      assert FirstFit(quantity, components, avail, []).None?;
      assert BestFrom(components, avail, [], Some(location), capacity) == (Some(location), capacity);
    }
  }

  lemma CapacityIs(components: seq<Component>, avail: Availability, location: nat, most: nat)
    requires components != [] && PositiveUnits(components)
    requires CanSupply(components, avail, location, most) && !CanSupply(components, avail, location, most + 1)
    ensures CapacityAt(components, avail, location) == most
  {
    CapacityIsGreatest(components, avail, location, most);
    CapacityIsGreatest(components, avail, location, most + 1);
  }

  /** What a plain item has for an order at one location. */
  lemma PlainCapacity(b: Balances, r: Request, k: Key, floor: nat)
    requires r.order == [k.location] && k in b && IsFloor(r.safety, k, floor)
    ensures var components := [Component(k.item, 1)];
            PositiveUnits(components)
            && CapacityAt(components, AvailableIn(b, r.safety, components, r.order), k.location)
               == Max(0, b[k].onHand - b[k].reserved - floor)
  {
    var components := [Component(k.item, 1)];
    var avail := AvailableIn(b, r.safety, components, r.order);
    var most: nat := Max(0, b[k].onHand - b[k].reserved - floor);
    assert k == Key(k.item, k.location) && components[0] in components && HasItem(components, k.item);
    AvailableExactly(b, r, components, k.item, k.location, most);
    AvailableExactly(b, r, components, k.item, k.location, most + 1);
    CapacityIs(components, avail, k.location, most);
  }

  /** An order for a plain item with one eligible location is given exactly what it asked for, or all
      that lies there above what is reserved and the safety stock in force. */
  lemma PlainOrderIsFilled(s: State, r: Request, k: Key, floor: nat)
    requires Inv(s) && r.quantity >= 1 && r.expansion == Some([Component(k.item, 1)]) && r.order == [k.location]
    requires k in s.balances && IsFloor(r.safety, k, floor)
    requires forall i :: 0 <= i < |s.reservations| ==> s.reservations[i].line != r.line
    ensures var t := ReserveStep(s, r);
            && t.reply.Recorded?
            && t.reply.reservation.supplied == Min(r.quantity, Max(0, s.balances[k].onHand - s.balances[k].reserved - floor))
            && t.reply.reservation.shortage == r.quantity - t.reply.reservation.supplied
            && QtyAt(t.reply.reservation.takes, k) == t.reply.reservation.supplied
  {
    ReserveAnswers(s, r);
    var components, plan := RecordedIsPlanned(s, r);
    PlanAtOne(r.quantity, components, AvailableIn(s.balances, r.safety, components, r.order), k.location, r.split);
    PlainCapacity(s.balances, r, k, floor);
    TakesForOne(k, plan.supplied);
  }

  lemma {:induction false} TakesForOne(k: Key, quantity: nat)
    ensures QtyAt(HereTakes([Component(k.item, 1)], k.location, quantity), k) == quantity
  {
    var takes := HereTakes([Component(k.item, 1)], k.location, quantity);
    if quantity > 0 {
      assert takes == [Take(k, quantity)] && takes[..0] == [];
    }
  }

  // ---------------------------------------------------------------------------------------
  // Switching the consumption mode
  // ---------------------------------------------------------------------------------------

  ghost function OpenIds(s: State): set<nat> {
    set id: nat | id < |s.reservations| && s.reservations[id].status == Open
  }

  ghost function Members(ids: seq<nat>): set<nat> {
    set id | id in ids
  }

  lemma {:induction false} DistinctCount(ids: seq<nat>)
    requires Distinct(ids)
    ensures |Members(ids)| == |ids|
  {
    if ids == [] {
      assert Members(ids) == {};
    } else {
      var n := |ids| - 1;
      DistinctCount(ids[..n]);
      assert ids[n] !in Members(ids[..n]);
      assert Members(ids) == Members(ids[..n]) + {ids[n]};
    }
  }

  /** A switch nobody confirmed moves no stock and no reservation, and changes the mode exactly when it
      differs and no reservation is open. A confirmed one always ends in the mode asked for, moves each
      open reservation that is recorded the other way and, when the units are to be consumed, fits, and
      leaves every free unit free. The answer says which it was, with the number of open reservations. */
  lemma SwitchedExactly(s: State, to: Mode, migrateOpen: bool, open: seq<nat>)
    requires Inv(s) && Distinct(open) && forall id: nat :: id in open <==> id in OpenIds(s)
    ensures var u := SwitchStep(s, to, migrateOpen, open);
            && (u.outcome == Same <==> s.mode == to)
            && (u.outcome.NeedsMigration? <==> s.mode != to && !migrateOpen && OpenIds(s) != {})
            && (u.outcome.NeedsMigration? ==> u.outcome.openReservations == |OpenIds(s)|)
            && (u.outcome != Switched ==> u.next == s)
            && (u.outcome == Switched ==> u.next.mode == to)
            && (!migrateOpen ==> u.next == s.(mode := if s.mode != to && OpenIds(s) == {} then to else s.mode))
            && |u.next.reservations| == |s.reservations|
            && (forall k :: Free(u.next.balances, k) == Free(s.balances, k))
            && forall id: nat :: id < |s.reservations| ==>
                 && SameButRecording(s.reservations[id], u.next.reservations[id])
                 && u.next.reservations[id].mode ==
                      if && u.outcome == Switched && id in OpenIds(s)
                         && (to == ReserveUntilFulfilled || Fits(s.balances, s.reservations[id].takes))
                      then to else s.reservations[id].mode
  {
    DistinctCount(open);
    assert Members(open) == OpenIds(s);
    MigrateAllConserves(s, open, to);
    if open != [] {
      assert open[0] in OpenIds(s);
    }
    forall id: nat | id in open
      ensures MigrateAll(s, open, to).reservations[id].mode ==
                if to == ReserveUntilFulfilled || Fits(s.balances, s.reservations[id].takes) then to else s.reservations[id].mode
    {
      MigratedMode(s, open, to, id);
    }
  }

  lemma MigratedMode(s: State, open: seq<nat>, to: Mode, id: nat)
    requires Inv(s) && id in open && id < |s.reservations| && s.reservations[id].status == Open
    ensures |MigrateAll(s, open, to).reservations| == |s.reservations|
    ensures MigrateAll(s, open, to).reservations[id].mode ==
              if to == ReserveUntilFulfilled || Fits(s.balances, s.reservations[id].takes) then to else s.reservations[id].mode
  {
    if s.reservations[id].mode == to {
      MigratedStays(s, open, to, id);
    } else {
      SwitchMigratesExactly(s, open, to, id);
      match to
      case ReserveUntilFulfilled =>
      case ConsumeImmediately =>
        var after := MigrateAll(s, open, to).reservations[id].mode;
        assert after == ConsumeImmediately || after == ReserveUntilFulfilled;
    }
  }
}
