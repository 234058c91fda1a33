/**
  How often a ledger entry is reversed.

  Reversing an entry by hand looks for an earlier reversal and refuses a second. Releasing a consumed
  reservation, or migrating it to reserving, reverses the entries that consumed its units without
  looking (packages/inventory/src/reservations.ts, packages/inventory/src/adjustments.ts), and the
  table has no unique index that would.
 */
module Reversing {
  import opened Stock
  import opened Allocation
  import opened Ledger
  import opened Reservations
  import opened InventoryInvariant
  import opened InventoryRuns
  import opened Equivalence

  ghost predicate IsReversed(ledger: seq<Movement>, entry: nat) {
    exists i :: 0 <= i < |ledger| && ledger[i].reversalOf == Some(entry)
  }

  /** No entry is reversed twice. */
  ghost predicate AtMostOnce(ledger: seq<Movement>) {
    forall i, j :: 0 <= i < j < |ledger| && ledger[i].reversalOf.Some? ==> ledger[i].reversalOf != ledger[j].reversalOf
  }

  /** The reservation's units have left the shelf, and its entries say how. */
  predicate TakenOut(r: Reservation) {
    r.status == Open && r.mode == ConsumeImmediately
  }

  // ---------------------------------------------------------------------------------------
  // What a step adds to the ledger
  // ---------------------------------------------------------------------------------------

  /** The operation gives back the units of an open consumed reservation. */
  predicate GivesBack(s: State, op: Op) {
    match op
    case Release(id, explained) => explained && id < |s.reservations| && TakenOut(s.reservations[id])
    case Migrate(id, to) => to == ReserveUntilFulfilled && id < |s.reservations| && TakenOut(s.reservations[id])
    case _ => false
  }

  ghost predicate NothingReversed(before: seq<Movement>, after: seq<Movement>) {
    before <= after && forall i :: |before| <= i < |after| ==> after[i].reversalOf.None?
  }

  /** Only reservation `n` changes, and if its units are out afterwards, they were already or went by
      entries of this step. */
  ghost predicate Elsewhere(s: State, next: State, n: nat) {
    && (forall i :: 0 <= i < |next.reservations| && i != n ==> i < |s.reservations| && next.reservations[i] == s.reservations[i])
    && (n < |next.reservations| && TakenOut(next.reservations[n]) ==>
          || (n < |s.reservations| && next.reservations[n] == s.reservations[n])
          || forall e: nat :: Some(e) in next.reservations[n].entries ==> e >= |s.ledger|)
  }

  ghost predicate Quiet(s: State, next: State, n: nat) {
    NothingReversed(s.ledger, next.ledger) && Elsewhere(s, next, n)
  }

  /** The reservation an operation is about; none, for those that are about a key or an entry. */
  function About(s: State, op: Op): nat {
    match op
    case Reserve(_) => |s.reservations|
    case Fulfill(id) => id
    case Release(id, _) => id
    case Migrate(id, _) => id
    case _ => |s.reservations|
  }

  lemma FulfillIsQuiet(s: State, id: nat)
    requires Inv(s)
    ensures Quiet(s, FulfillStep(s, id).next, id)
  {
  }

  lemma ReserveIsQuiet(s: State, r: Request)
    ensures Quiet(s, ReserveStep(s, r).next, |s.reservations|)
  {
    if r.expansion.Some? {
      var plan := PlanAllocationOf(r.quantity, r.expansion.value,
                                   AvailableIn(s.balances, r.safety, r.expansion.value, r.order), r.order, r.split);
      if plan.Ok? {
        RecordIsQuiet(s, r, plan.value);
      }
    }
  }

  lemma RecordIsQuiet(s: State, r: Request, plan: Plan)
    ensures Quiet(s, RecordStep(s, r, plan).next, |s.reservations|)
  {
  }

  lemma ReleaseIsQuiet(s: State, id: nat, explained: bool)
    requires Inv(s) && Paired(s) && !GivesBack(s, Release(id, explained))
    ensures Quiet(s, ReleaseStep(s, id, explained).next, id)
  {
  }

  lemma MigrateIsQuiet(s: State, id: nat, to: Mode)
    requires Inv(s) && Paired(s) && !GivesBack(s, Migrate(id, to))
    ensures Quiet(s, MigrateStep(s, id, to).next, id)
  {
    if to == ConsumeImmediately {
    } else {
    }
  }

  lemma OthersAreQuiet(s: State, op: Op)
    requires Inv(s) && ValidOp(op) && !GivesBack(s, op) && !op.Reverse?
    ensures Quiet(s, Step(s, op).next, About(s, op))
  {
    match op
    case Reserve(r) => ReserveIsQuiet(s, r);
    case Fulfill(id) => FulfillIsQuiet(s, id);
    case Release(id, explained) => ReleaseIsQuiet(s, id, explained);
    case Migrate(id, to) => MigrateIsQuiet(s, id, to);
    case SetMode(to) =>
    case Adjust(k, change, explained) =>
    case Transfer(item, source, destination, quantity) =>
  }

  /** The entries of a reservation whose units are out are there, and differ. */
  lemma EntriesDiffer(s: State, id: nat)
    requires Inv(s) && id < |s.reservations| && TakenOut(s.reservations[id])
    ensures var r := s.reservations[id];
            && |r.entries| == |r.takes|
            && (forall i :: 0 <= i < |r.entries| ==> r.entries[i].Some? && r.entries[i].value < |s.ledger|
                                                     && s.ledger[r.entries[i].value].kind == Shipment
                                                     && s.ledger[r.entries[i].value].delta < 0)
            && (forall i, j :: 0 <= i < j < |r.entries| ==> r.entries[i] != r.entries[j])
  {
    var r := s.reservations[id];
    assert Sound(r, s.balances, s.ledger);
    forall i, j | 0 <= i < j < |r.entries| ensures r.entries[i] != r.entries[j] {
      assert r.takes[i].key != r.takes[j].key;
    }
  }

  /** Each of `entries` is reversed in turn. */
  ghost predicate Reverses(before: seq<Movement>, after: seq<Movement>, entries: seq<Option<nat>>) {
    && before <= after && |after| == |before| + |entries|
    && forall i :: 0 <= i < |entries| ==> after[|before| + i].reversalOf == entries[i]
  }

  lemma ReversalsReverse(ledger: seq<Movement>, takes: seq<Take>, entries: seq<Option<nat>>)
    requires |takes| == |entries| && forall i :: 0 <= i < |entries| ==> entries[i].Some?
    ensures Reverses(ledger, ledger + Reversals(takes, entries), entries)
  {
    ReversalsAll(takes, entries);
  }

  /** Giving back reverses exactly the entries of the reservation, one by one, and its units are no
      longer out. */
  ghost predicate GaveBack(s: State, next: State, id: nat)
    requires id < |s.reservations|
  {
    && Reverses(s.ledger, next.ledger, s.reservations[id].entries)
    && Elsewhere(s, next, id) && |next.reservations| == |s.reservations| && !TakenOut(next.reservations[id])
  }

  lemma ReleaseGivesBack(s: State, id: nat)
    requires Inv(s) && Paired(s) && GivesBack(s, Release(id, true))
    ensures GaveBack(s, ReleaseStep(s, id, true).next, id)
  {
    var r := s.reservations[id];
    EntriesDiffer(s, id);
    ReversalsReverse(s.ledger, r.takes, r.entries);
    if r.takes != [] {
      RestoredBalances(s, id);
    }
  }

  lemma MigrateGivesBack(s: State, id: nat)
    requires Inv(s) && Paired(s) && GivesBack(s, Migrate(id, ReserveUntilFulfilled))
    ensures GaveBack(s, MigrateStep(s, id, ReserveUntilFulfilled).next, id)
  {
    var r := s.reservations[id];
    EntriesDiffer(s, id);
    if r.takes != [] {
      MigrateToReservationIs(s, id);
      ReversalsReverse(s.ledger, r.takes, r.entries);
      assert GaveBack(s, RestoredState(s, id), id);
    }
  }

  lemma GivingBackReverses(s: State, op: Op)
    requires Inv(s) && GivesBack(s, op)
    ensures GaveBack(s, Step(s, op).next, About(s, op))
  {
    if op.Release? {
      ReleaseGivesBack(s, op.id);
    } else {
      MigrateGivesBack(s, op.id);
    }
  }

  /** What reversing by hand does. */
  lemma ReverseAdds(s: State, entry: nat, explained: bool)
    requires Inv(s)
    ensures var next := ReverseStep(s, entry, explained).next;
            && next.reservations == s.reservations
            && (next.ledger == s.ledger || (!IsReversed(s.ledger, entry) && Reverses(s.ledger, next.ledger, [Some(entry)])))
  {
  }

  // ---------------------------------------------------------------------------------------
  // One more reversal
  // ---------------------------------------------------------------------------------------

  lemma ReversedAfter(before: seq<Movement>, after: seq<Movement>, entries: seq<Option<nat>>, entry: nat)
    requires Reverses(before, after, entries)
    ensures IsReversed(after, entry) <==> IsReversed(before, entry) || Some(entry) in entries
  {
    if i :| 0 <= i < |before| && before[i].reversalOf == Some(entry) {
      assert after[i] == before[i];
    }
    if Some(entry) in entries {
      var i :| 0 <= i < |entries| && entries[i] == Some(entry);
      assert after[|before| + i].reversalOf == Some(entry);
    }
    if i :| 0 <= i < |after| && after[i].reversalOf == Some(entry) {
      if i < |before| {
        assert before[i] == after[i];
      } else {
        assert entries[i - |before|] == Some(entry);
      }
    }
  }

  lemma QuietReversesNothing(before: seq<Movement>, after: seq<Movement>)
    requires NothingReversed(before, after)
    ensures forall entry: nat :: IsReversed(after, entry) <==> IsReversed(before, entry)
    ensures AtMostOnce(before) ==> AtMostOnce(after)
  {
    forall entry: nat ensures IsReversed(after, entry) <==> IsReversed(before, entry) {
      if i :| 0 <= i < |before| && before[i].reversalOf == Some(entry) {
        assert after[i] == before[i];
      }
      if i :| 0 <= i < |after| && after[i].reversalOf == Some(entry) {
        assert before[i] == after[i];
      }
    }
  }

  /** Reversing different entries keeps "at most once" exactly when none of them was reversed. */
  lemma OnceMoreExactly(before: seq<Movement>, after: seq<Movement>, entries: seq<Option<nat>>)
    requires AtMostOnce(before) && Reverses(before, after, entries)
    requires forall i :: 0 <= i < |entries| ==> entries[i].Some?
    requires forall i, j :: 0 <= i < j < |entries| ==> entries[i] != entries[j]
    ensures AtMostOnce(after) <==> forall i :: 0 <= i < |entries| ==> !IsReversed(before, entries[i].value)
  {
    if i :| 0 <= i < |entries| && IsReversed(before, entries[i].value) {
      var j :| 0 <= j < |before| && before[j].reversalOf == Some(entries[i].value);
      assert after[j].reversalOf == after[|before| + i].reversalOf;
    } else {
      forall i, j | 0 <= i < j < |after| && after[i].reversalOf.Some? ensures after[i].reversalOf != after[j].reversalOf {
        if i < |before| <= j {
          assert before[i] == after[i] && after[j].reversalOf == entries[j - |before|];
        } else if |before| <= i {
          assert after[i].reversalOf == entries[i - |before|] && after[j].reversalOf == entries[j - |before|];
        }
      }
    }
  }

  /** Some unit it would give back has already been put back by hand. */
  ghost predicate GivesBackAgain(s: State, op: Op)
    requires Inv(s)
  {
    GivesBack(s, op) && exists e: nat :: Some(e) in s.reservations[About(s, op)].entries && IsReversed(s.ledger, e)
  }

  /** Starting from at most one reversal of every entry, an operation keeps it if and only if it does
      not give back a take whose entry has a reversal already. */
  lemma AtMostOnceKeptExactly(s: State, op: Op)
    requires Inv(s) && ValidOp(op) && AtMostOnce(s.ledger)
    ensures AtMostOnce(Step(s, op).next.ledger) <==> !GivesBackAgain(s, op)
  {
    var next := Step(s, op).next;
    if GivesBack(s, op) {
      var entries := s.reservations[About(s, op)].entries;
      GivingBackReverses(s, op);
      EntriesDiffer(s, About(s, op));
      OnceMoreExactly(s.ledger, next.ledger, entries);
      forall e: nat | Some(e) in entries ensures exists i :: 0 <= i < |entries| && entries[i].value == e {
        var i :| 0 <= i < |entries| && entries[i] == Some(e);
      }
    } else if op.Reverse? {
      ReverseAdds(s, op.entryId, op.explained);
      if next.ledger != s.ledger {
        OnceMoreExactly(s.ledger, next.ledger, [Some(op.entryId)]);
      }
    } else {
      OthersAreQuiet(s, op);
      QuietReversesNothing(s.ledger, next.ledger);
    }
  }

  // ---------------------------------------------------------------------------------------
  // What callers must not do
  // ---------------------------------------------------------------------------------------

  /** An open consumed reservation refers to the entry. */
  ghost predicate Referred(s: State, entry: nat) {
    exists i :: 0 <= i < |s.reservations| && TakenOut(s.reservations[i]) && Some(entry) in s.reservations[i].entries
  }

  /** No entry is reversed twice, none that an open reservation still refers to is reversed at all, and
      no two of those share one. */
  ghost predicate Clean(s: State) {
    && AtMostOnce(s.ledger)
    && (forall entry: nat :: Referred(s, entry) ==> !IsReversed(s.ledger, entry))
    && Separate(s)
  }

  /** No two open consumed reservations share an entry. */
  ghost predicate Separate(s: State) {
    forall i, j :: 0 <= i < j < |s.reservations| && TakenOut(s.reservations[i]) && TakenOut(s.reservations[j]) ==>
      Disjoint(s.reservations[i].entries, s.reservations[j].entries)
  }

  ghost predicate Disjoint(a: seq<Option<nat>>, b: seq<Option<nat>>) {
    forall entry: nat :: Some(entry) in a ==> Some(entry) !in b
  }

  lemma QuietKeepsClean(s: State, next: State, n: nat)
    requires Inv(s) && Inv(next) && Clean(s) && Quiet(s, next, n)
    ensures Clean(next)
  {
    QuietReversesNothing(s.ledger, next.ledger);
    forall entry: nat | Referred(next, entry) ensures !IsReversed(next.ledger, entry) {
      var i :| 0 <= i < |next.reservations| && TakenOut(next.reservations[i]) && Some(entry) in next.reservations[i].entries;
      if entry < |s.ledger| {
        assert next.reservations[i] == s.reservations[i];
      } else {
        NotYetReversed(s, entry);
      }
    }
    SeparateKept(s, next, n);
  }

  /** An entry that did not exist cannot have been reversed. */
  lemma NotYetReversed(s: State, entry: nat)
    requires Inv(s) && entry >= |s.ledger|
    ensures !IsReversed(s.ledger, entry)
  {
  }

  lemma SeparateKept(s: State, next: State, n: nat)
    requires Inv(s) && Clean(s) && Elsewhere(s, next, n)
    ensures Separate(next)
  {
    forall i, j | 0 <= i < j < |next.reservations| && TakenOut(next.reservations[i]) && TakenOut(next.reservations[j])
      ensures Disjoint(next.reservations[i].entries, next.reservations[j].entries)
    {
      if i != n {
        OldEntries(s, i);
      }
      if j != n {
        OldEntries(s, j);
      }
    }
  }

  lemma OldEntries(s: State, id: nat)
    requires Inv(s) && id < |s.reservations| && TakenOut(s.reservations[id])
    ensures forall entry: nat :: Some(entry) in s.reservations[id].entries ==> entry < |s.ledger|
  {
    EntriesDiffer(s, id);
    var entries := s.reservations[id].entries;
    forall entry: nat | Some(entry) in entries ensures entry < |s.ledger| {
      var t :| 0 <= t < |entries| && entries[t] == Some(entry);
      assert entries[t].value < |s.ledger|;
    }
  }

  lemma GivingBackKeepsClean(s: State, next: State, id: nat)
    requires Inv(s) && Clean(s) && id < |s.reservations| && TakenOut(s.reservations[id]) && GaveBack(s, next, id)
    ensures Clean(next)
  {
    var entries := s.reservations[id].entries;
    EntriesDiffer(s, id);
    forall i | 0 <= i < |entries| ensures !IsReversed(s.ledger, entries[i].value) {
      assert entries[i] == Some(entries[i].value) && entries[i] in entries;
      assert Referred(s, entries[i].value);
    }
    OnceMoreExactly(s.ledger, next.ledger, entries);
    forall entry: nat | Referred(next, entry) ensures !IsReversed(next.ledger, entry) {
      var i :| 0 <= i < |next.reservations| && TakenOut(next.reservations[i]) && Some(entry) in next.reservations[i].entries;
      assert i != id && next.reservations[i] == s.reservations[i];
      assert Referred(s, entry);
      ReversedAfter(s.ledger, next.ledger, entries, entry);
    }
    SeparateKept(s, next, id);
  }

  /** Reversing by hand an entry that was never reversed, with a reason, goes through when it puts units
      back. */
  lemma ReversingShipment(s: State, entry: nat)
    requires Inv(s) && entry < |s.ledger| && s.ledger[entry].kind == Shipment && s.ledger[entry].delta < 0
    requires !IsReversed(s.ledger, entry)
    ensures Reverses(s.ledger, ReverseStep(s, entry, true).next.ledger, [Some(entry)])
  {
    var m := Movement(s.ledger[entry].key, Reversal, -s.ledger[entry].delta, Some(entry));
    PutsUnitsBack(s.balances, |s.ledger|, m);
  }

  lemma PutsUnitsBack(b: Balances, size: nat, m: Movement)
    requires Checked(b) && m.kind == Reversal && m.reversalOf.Some? && m.delta > 0
    ensures PostingOf(b, size, [m]).Posted?
  {
    OneMovement(b, size, m);
  }

  lemma ReverseCleanExactly(s: State, entry: nat, explained: bool)
    requires Inv(s) && Clean(s)
    ensures Clean(ReverseStep(s, entry, explained).next) <==> !(explained && Referred(s, entry))
  {
    var next := ReverseStep(s, entry, explained).next;
    ReverseAdds(s, entry, explained);
    if explained && Referred(s, entry) {
      var i :| 0 <= i < |s.reservations| && TakenOut(s.reservations[i]) && Some(entry) in s.reservations[i].entries;
      EntriesDiffer(s, i);
      ReversingShipment(s, entry);
      ReversedAfter(s.ledger, next.ledger, [Some(entry)], entry);
      assert Referred(next, entry);
    } else if next.ledger != s.ledger {
      OnceMoreExactly(s.ledger, next.ledger, [Some(entry)]);
      forall e: nat | Referred(next, e) ensures !IsReversed(next.ledger, e) {
        assert Referred(s, e);
        ReversedAfter(s.ledger, next.ledger, [Some(entry)], e);
      }
    }
  }

  /** The one thing a caller must not do: reverse by hand an entry that an open reservation's units
      left by. Any other operation keeps the ledger clean, and that one never does. */
  lemma CleanKeptExactly(s: State, op: Op)
    requires Inv(s) && ValidOp(op) && Clean(s)
    ensures Clean(Step(s, op).next) <==> !(op.Reverse? && op.explained && Referred(s, op.entryId))
  {
    StepKeeps(s, op);
    if op.Reverse? {
      ReverseCleanExactly(s, op.entryId, op.explained);
    } else if GivesBack(s, op) {
      GivingBackReverses(s, op);
      GivingBackKeepsClean(s, Step(s, op).next, About(s, op));
    } else {
      OthersAreQuiet(s, op);
      QuietKeepsClean(s, Step(s, op).next, About(s, op));
    }
  }

  ghost predicate CarefulRun(s: State, ops: seq<Op>)
    requires Inv(s) && ValidRun(ops)
    decreases ops
  {
    ops == []
    || (StepKeeps(s, ops[0]);
        !(ops[0].Reverse? && ops[0].explained && Referred(s, ops[0].entryId)) && CarefulRun(Step(s, ops[0]).next, ops[1..]))
  }

  /** In every run that does not, every entry is reversed at most once. */
  lemma {:induction false} CarefulRunsReverseOnce(s: State, ops: seq<Op>)
    requires Inv(s) && ValidRun(ops) && Clean(s) && CarefulRun(s, ops)
    ensures Clean(Run(s, ops)) && AtMostOnce(Run(s, ops).ledger)
    decreases ops
  {
    if ops != [] {
      StepKeeps(s, ops[0]);
      CleanKeptExactly(s, ops[0]);
      CarefulRunsReverseOnce(Step(s, ops[0]).next, ops[1..]);
    }
  }

  lemma EmptyIsClean()
    ensures Inv(EMPTY) && Clean(EMPTY)
  {
  }

  /** In particular every such run from nothing. */
  lemma CarefulRunsFromNothing(ops: seq<Op>)
    requires ValidRun(ops) && Inv(EMPTY) && CarefulRun(EMPTY, ops)
    ensures AtMostOnce(Run(EMPTY, ops).ledger)
  {
    EmptyIsClean();
    CarefulRunsReverseOnce(EMPTY, ops);
  }

  // ---------------------------------------------------------------------------------------
  // What happens otherwise
  // ---------------------------------------------------------------------------------------

  const PUT_BACK := State(
    map[SHELF := Balance(5, 0)], CONSUMED.ledger + [Movement(SHELF, Reversal, 3, Some(1))], CONSUMED.reservations, ConsumeImmediately)

  const PUT_BACK_TWICE := State(
    map[SHELF := Balance(8, 0)], PUT_BACK.ledger + [Movement(SHELF, Reversal, 3, Some(1))],
    [CONSUMED.reservations[0].(status := Released)], ConsumeImmediately)

  /** Five received and three taken out for an order. The entry is reversed by hand, then the order is
      cancelled: eight are on the shelf, and the entry has two reversals. */
  lemma ReversedTwice()
    ensures Inv(CONSUMED) && Clean(CONSUMED)
    ensures ReverseStep(CONSUMED, 1, true).next == PUT_BACK
    ensures ReleaseStep(PUT_BACK, 0, true) == Transition(PUT_BACK_TWICE, ReleasedUnits(3))
    ensures !AtMostOnce(PUT_BACK_TWICE.ledger)
  {
    BothRecordings();
    assert CONSUMED.ledger[0].reversalOf.None? && CONSUMED.ledger[1].reversalOf.None?;
    PutBackOnce();
    PutBackAgain();
    assert PUT_BACK_TWICE.ledger[2].reversalOf == PUT_BACK_TWICE.ledger[3].reversalOf;
  }

  lemma OneReversal(b: Balances, size: nat)
    requires Checked(b) && SHELF in b && b.Keys == {SHELF}
    ensures var ms := [Movement(SHELF, Reversal, 3, Some(1))];
            PostingOf(b, size, ms).Posted? && Moved(b, ms) == map[SHELF := Balance(b[SHELF].onHand + 3, b[SHELF].reserved)]
  {
    var m := Movement(SHELF, Reversal, 3, Some(1));
    OneMovement(b, size, m);
    assert m in [m] && Moved(b, [m]).Keys == {SHELF};
    assert At(Moved(b, [m]), SHELF) == Moved(b, [m])[SHELF];
  }

  lemma PutBackOnce()
    ensures ReverseStep(CONSUMED, 1, true).next == PUT_BACK
  {
    OneReversal(CONSUMED.balances, 2);
    assert FindReversal(CONSUMED.ledger, 1).None?;
  }

  lemma PutBackAgain()
    ensures ReleaseStep(PUT_BACK, 0, true) == Transition(PUT_BACK_TWICE, ReleasedUnits(3))
  {
    var r := PUT_BACK.reservations[0];
    OneReversal(PUT_BACK.balances, 3);
    ReversalsAll(r.takes, r.entries);
    assert Reversals(r.takes, r.entries) == [Movement(SHELF, Reversal, 3, Some(1))];
    assert r.takes[..0] == [] && TotalQty(r.takes) == 3;
  }
}
