/**
  What every inventory transaction keeps, and what fulfilling, releasing and migrating come to,
  over every run.
 */
module InventoryInvariant {
  import opened Stock
  import opened Allocation
  import opened Ledger
  import opened Reservations

  /** The reservation's units are marked as spoken for. */
  predicate Holds(r: Reservation) {
    r.status == Open && r.mode == ReserveUntilFulfilled
  }

  function Share(r: Reservation, k: Key): int {
    if Holds(r) then QtyAt(r.takes, k) else 0
  }

  /** Units reserved at a key by the open reservations that reserve. */
  function ReservedBy(rs: seq<Reservation>, k: Key): int {
    if rs == [] then 0 else ReservedBy(rs[..|rs| - 1], k) + Share(rs[|rs| - 1], k)
  }

  /** Open reservations recorded by consumption name the shipment that consumed each allocation. */
  ghost predicate Traced(r: Reservation, ledger: seq<Movement>) {
    r.status == Open && r.mode == ConsumeImmediately ==>
      forall i :: 0 <= i < |r.takes| ==>
        && |r.entries| == |r.takes|
        && r.entries[i].Some? && r.entries[i].value < |ledger|
        && ledger[r.entries[i].value] == Movement(r.takes[i].key, Shipment, -r.takes[i].quantity, None)
  }

  /** Allocations are positive, at keys that have a row, and name each key once. */
  ghost predicate Allocations(takes: seq<Take>, b: Balances) {
    && (forall i :: 0 <= i < |takes| ==> takes[i].quantity >= 1 && takes[i].key in b)
    && (forall i, j :: 0 <= i < j < |takes| ==> takes[i].key != takes[j].key)
  }

  ghost predicate Sound(r: Reservation, b: Balances, ledger: seq<Movement>) {
    && |r.entries| == |r.takes|
    && r.quantity >= 1 && 0 <= r.shortage <= r.quantity
    && Allocations(r.takes, b)
    && Traced(r, ledger)
  }

  /** Every entry is well formed and a reversal names an earlier entry it exactly undoes. */
  ghost predicate Linked(ledger: seq<Movement>) {
    forall i :: 0 <= i < |ledger| ==>
      && FaultIn(ledger[i]).None?
      && (ledger[i].reversalOf.Some? ==>
            && ledger[i].reversalOf.value < i
            && ledger[ledger[i].reversalOf.value].key == ledger[i].key
            && ledger[ledger[i].reversalOf.value].delta == -ledger[i].delta)
  }

  /** One order line, one reservation, ever. */
  ghost predicate DistinctLines(rs: seq<Reservation>) {
    forall i, j :: 0 <= i < j < |rs| ==> rs[i].line != rs[j].line
  }

  ghost predicate Explained(s: State) {
    forall k :: At(s.balances, k) == Balance(NetAt(s.ledger, k), ReservedBy(s.reservations, k))
  }

  /**
    The run invariant. On hand is what the ledger adds up to; reserved is what open reservations
    hold; and reserved never exceeds on hand.
   */
  ghost predicate Inv(s: State) {
    && Checked(s.balances)
    && Explained(s)
    && Linked(s.ledger)
    && DistinctLines(s.reservations)
    && forall i :: 0 <= i < |s.reservations| ==> Sound(s.reservations[i], s.balances, s.ledger)
  }

  const EMPTY := State(map[], [], [], ReserveUntilFulfilled)

  lemma EmptyInv()
    ensures Inv(EMPTY)
  {
  }

  // ---------------------------------------------------------------------------------------
  // Sums
  // ---------------------------------------------------------------------------------------

  lemma {:induction false} ReservedUpdate(rs: seq<Reservation>, i: nat, r: Reservation, k: Key)
    requires i < |rs|
    ensures ReservedBy(rs[i := r], k) == ReservedBy(rs, k) - Share(rs[i], k) + Share(r, k)
  {
    var n := |rs| - 1;
    if i == n {
      assert rs[i := r][..n] == rs[..n];
    } else {
      ReservedUpdate(rs[..n], i, r, k);
      assert rs[i := r][..n] == rs[..n][i := r];
    }
  }

  lemma ReservedAppend(rs: seq<Reservation>, r: Reservation, k: Key)
    ensures ReservedBy(rs + [r], k) == ReservedBy(rs, k) + Share(r, k)
  {
    assert (rs + [r])[..|rs|] == rs;
  }

  lemma {:induction false} QtyNonNegative(takes: seq<Take>, k: Key)
    requires forall i :: 0 <= i < |takes| ==> takes[i].quantity >= 1
    ensures QtyAt(takes, k) >= 0
    ensures QtyAt(takes, k) > 0 <==> exists i :: 0 <= i < |takes| && takes[i].key == k
  {
    if takes != [] {
      var n := |takes| - 1;
      QtyNonNegative(takes[..n], k);
      if QtyAt(takes[..n], k) > 0 {
        var i :| 0 <= i < |takes[..n]| && takes[..n][i].key == k;
        assert takes[i].key == k;
      }
      if takes[n].key == k {
      } else if i :| 0 <= i < |takes| && takes[i].key == k {
        assert takes[..n][i].key == k;
      }
    }
  }

  lemma {:induction false} ReservedAtLeast(rs: seq<Reservation>, i: nat, k: Key)
    requires i < |rs|
    requires forall j, t :: 0 <= j < |rs| && 0 <= t < |rs[j].takes| ==> rs[j].takes[t].quantity >= 1
    ensures ReservedBy(rs, k) >= Share(rs[i], k) >= 0
    ensures ReservedBy(rs[..i], k) >= 0
  {
    var n := |rs| - 1;
    QtyNonNegative(rs[n].takes, k);
    QtyNonNegative(rs[i].takes, k);
    if i < n {
      ReservedAtLeast(rs[..n], i, k);
      assert rs[..n][..i] == rs[..i];
    } else if n > 0 {
      ReservedAtLeast(rs[..n], n - 1, k);
      assert rs[..n][..n - 1] + [rs[n - 1]] == rs[..n];
      ReservedAppend(rs[..n][..n - 1], rs[n - 1], k);
    }
  }

  lemma {:induction false} ShipmentsNet(takes: seq<Take>, k: Key)
    ensures NetAt(Shipments(takes), k) == -QtyAt(takes, k)
  {
    if takes != [] {
      var n := |takes| - 1;
      ShipmentsNet(takes[..n], k);
      assert Shipments(takes)[..n] == Shipments(takes[..n]);
    }
  }

  lemma ShipmentsTouch(takes: seq<Take>, k: Key)
    ensures k in Touched(Shipments(takes)) <==> exists i :: 0 <= i < |takes| && takes[i].key == k
  {
    var ms := Shipments(takes);
    if i :| 0 <= i < |takes| && takes[i].key == k {
      assert ms[i] in ms;
    }
    if m :| m in ms && m.key == k {
      var i :| 0 <= i < |ms| && ms[i] == m;
      assert takes[i].key == k;
    }
  }

  lemma {:induction false} ReversalsAll(takes: seq<Take>, entries: seq<Option<nat>>)
    requires |takes| == |entries|
    requires forall i :: 0 <= i < |entries| ==> entries[i].Some?
    ensures |Reversals(takes, entries)| == |takes|
    ensures forall i :: 0 <= i < |takes| ==>
              Reversals(takes, entries)[i] == Movement(takes[i].key, Reversal, takes[i].quantity, entries[i])
    ensures Reversible(takes, entries) == TotalQty(takes)
  {
    if takes != [] {
      var n := |takes| - 1;
      ReversalsAll(takes[..n], entries[..n]);
    }
  }

  lemma {:induction false} ReversalsNet(takes: seq<Take>, entries: seq<Option<nat>>, k: Key)
    requires |takes| == |entries|
    requires forall i :: 0 <= i < |entries| ==> entries[i].Some?
    ensures NetAt(Reversals(takes, entries), k) == QtyAt(takes, k)
  {
    if takes != [] {
      var n := |takes| - 1;
      ReversalsNet(takes[..n], entries[..n], k);
      var ms := Reversals(takes, entries);
      assert ms[..|ms| - 1] == Reversals(takes[..n], entries[..n]);
    }
  }

  // ---------------------------------------------------------------------------------------
  // Posting shipments and reversals
  // ---------------------------------------------------------------------------------------

  /** Every allocated key has as many uncommitted units as the allocation takes. */
  ghost predicate Fits(b: Balances, takes: seq<Take>) {
    forall i :: 0 <= i < |takes| ==> Free(b, takes[i].key) >= takes[i].quantity
  }

  lemma {:induction false} QtyOfDistinct(takes: seq<Take>, i: nat)
    requires i < |takes|
    requires forall i, j :: 0 <= i < j < |takes| ==> takes[i].key != takes[j].key
    ensures QtyAt(takes, takes[i].key) == takes[i].quantity
  {
    var n := |takes| - 1;
    if i < n {
      QtyOfDistinct(takes[..n], i);
    } else {
      QtyAbsent(takes[..n], takes[i].key);
    }
  }

  lemma {:induction false} QtyAbsent(takes: seq<Take>, k: Key)
    requires forall i :: 0 <= i < |takes| ==> takes[i].key != k
    ensures QtyAt(takes, k) == 0
  {
    if takes != [] {
      QtyAbsent(takes[..|takes| - 1], k);
    }
  }

  /** Shipping an allocation is accepted exactly when it fits beside everything reserved. */
  lemma ShipmentAccepted(b: Balances, size: nat, takes: seq<Take>)
    requires Checked(b) && Allocations(takes, b) && takes != []
    ensures PostingOf(b, size, Shipments(takes)).Posted? <==> Fits(b, takes)
    ensures PostingOf(b, size, Shipments(takes)).Posted? ==>
              PostingOf(b, size, Shipments(takes)).entryIds == Ids(size, |takes|)
  {
    var ms := Shipments(takes);
    PostedExactly(b, size, ms);
    assert |ms| == |takes|;
    forall m | m in ms ensures FaultIn(m).None? {
      var i :| 0 <= i < |ms| && ms[i] == m;
      assert takes[i].quantity >= 1;
    }
    forall i | 0 <= i < |takes|
      ensures takes[i].key in Touched(ms) && NetAt(ms, takes[i].key) == -takes[i].quantity
    {
      ShipmentsTouch(takes, takes[i].key);
      ShipmentsNet(takes, takes[i].key);
      QtyOfDistinct(takes, i);
    }
    forall k | k in Touched(ms) ensures exists i :: 0 <= i < |takes| && takes[i].key == k {
      ShipmentsTouch(takes, k);
    }
  }

  lemma QtyInside(takes: seq<Take>, b: Balances, k: Key)
    requires Allocations(takes, b)
    ensures QtyAt(takes, k) >= 0
    ensures k !in b ==> QtyAt(takes, k) == 0
  {
    QtyNonNegative(takes, k);
  }

  /** Balances after shipping, key by key. */
  lemma ShippedBalances(b: Balances, size: nat, takes: seq<Take>)
    requires Checked(b) && Allocations(takes, b) && takes != [] && Fits(b, takes)
    ensures Checked(Moved(b, Shipments(takes)))
    ensures Moved(b, Shipments(takes)).Keys == b.Keys
    ensures forall k :: At(Moved(b, Shipments(takes)), k) == Balance(At(b, k).onHand - QtyAt(takes, k), At(b, k).reserved)
  {
    ShipmentAccepted(b, size, takes);
    PostedBalances(b, size, Shipments(takes));
    forall k ensures NetAt(Shipments(takes), k) == -QtyAt(takes, k) && (k in Touched(Shipments(takes)) ==> k in b) {
      ShipmentsNet(takes, k);
      ShipmentsTouch(takes, k);
    }
  }

  lemma LoweredBalances(b: Balances, takes: seq<Take>)
    requires Checked(b) && Allocations(takes, b)
    requires forall k :: k in b ==> QtyAt(takes, k) <= b[k].reserved
    ensures Checked(LowerReserved(b, takes))
    ensures LowerReserved(b, takes).Keys == b.Keys
    ensures forall k :: At(LowerReserved(b, takes), k) == Balance(At(b, k).onHand, At(b, k).reserved - QtyAt(takes, k))
  {
    forall k ensures QtyAt(takes, k) >= 0 && (k !in b ==> QtyAt(takes, k) == 0) {
      QtyInside(takes, b, k);
    }
  }

  /** Every unit to be reserved is free. */
  ghost predicate Reservable(b: Balances, takes: seq<Take>) {
    && (forall i :: 0 <= i < |takes| ==> takes[i].quantity >= 0)
    && (forall k :: k in b ==> QtyAt(takes, k) <= Free(b, k))
  }

  lemma RaisedBalances(b: Balances, takes: seq<Take>)
    requires Checked(b) && Allocations(takes, b)
    requires forall k :: k in b ==> QtyAt(takes, k) <= Free(b, k)
    ensures Checked(RaiseReserved(b, takes))
    ensures RaiseReserved(b, takes).Keys == b.Keys
    ensures forall k :: At(RaiseReserved(b, takes), k) == Balance(At(b, k).onHand, At(b, k).reserved + QtyAt(takes, k))
  {
    forall k ensures QtyAt(takes, k) >= 0 && (k !in b ==> QtyAt(takes, k) == 0) {
      QtyInside(takes, b, k);
    }
  }

  /** `moved` is `b` with the units of `takes` back on hand. */
  ghost predicate Restocked(b: Balances, moved: Balances, takes: seq<Take>) {
    forall k :: At(moved, k) == Balance(At(b, k).onHand + QtyAt(takes, k), At(b, k).reserved)
  }

  /** Movements that put the units of `takes` back, where there are rows. */
  ghost predicate PutsBack(ms: seq<Movement>, takes: seq<Take>, b: Balances) {
    && WellFormed(ms)
    && (forall m :: m in ms ==> m.key in b)
    && (forall k :: NetAt(ms, k) == QtyAt(takes, k) >= 0)
  }

  lemma ReversalsPutBack(takes: seq<Take>, entries: seq<Option<nat>>, b: Balances)
    requires takes != [] && |takes| == |entries| && Allocations(takes, b)
    requires forall i :: 0 <= i < |entries| ==> entries[i].Some?
    ensures PutsBack(Reversals(takes, entries), takes, b)
  {
    var ms := Reversals(takes, entries);
    ReversalsAll(takes, entries);
    forall m | m in ms ensures FaultIn(m).None? && m.key in b {
      var i :| 0 <= i < |ms| && ms[i] == m;
      assert takes[i].quantity >= 1;
    }
    forall k ensures NetAt(ms, k) == QtyAt(takes, k) >= 0 {
      ReversalsNet(takes, entries, k);
      QtyInside(takes, b, k);
    }
  }

  /** Putting units back is always accepted: it only adds. */
  lemma PuttingBackPosts(b: Balances, size: nat, ms: seq<Movement>, takes: seq<Take>)
    requires Checked(b) && PutsBack(ms, takes, b)
    ensures PostingOf(b, size, ms).Posted?
    ensures Checked(Moved(b, ms)) && Moved(b, ms).Keys == b.Keys && Restocked(b, Moved(b, ms), takes)
  {
    forall k | k in Touched(ms) ensures Free(b, k) + NetAt(ms, k) >= 0 {
      assert k in b;
    }
    PostedExactly(b, size, ms);
    PostedBalances(b, size, ms);
  }

  /** The reversals of a consumed reservation are linked to the entries they undo. */
  lemma ReversalsLinked(s: State, id: nat)
    requires Inv(s) && id < |s.reservations|
    requires s.reservations[id].status == Open && s.reservations[id].mode == ConsumeImmediately
    ensures |s.reservations[id].takes| == |s.reservations[id].entries|
    ensures forall i :: 0 <= i < |s.reservations[id].entries| ==> s.reservations[id].entries[i].Some?
    ensures Linked(s.ledger + Reversals(s.reservations[id].takes, s.reservations[id].entries))
  {
    var r := s.reservations[id];
    assert Sound(r, s.balances, s.ledger);
    ReversalsAll(r.takes, r.entries);
    LinkedAppend(s.ledger, Reversals(r.takes, r.entries));
  }

  /** Reversing consumed allocations is always accepted, and restores exactly their units. */
  lemma RestoredBalances(s: State, id: nat)
    requires Inv(s) && id < |s.reservations|
    requires s.reservations[id].status == Open && s.reservations[id].mode == ConsumeImmediately
    requires s.reservations[id].takes != []
    ensures var r := s.reservations[id];
            var ms := Reversals(r.takes, r.entries);
            && ms != []
            && PostingOf(s.balances, |s.ledger|, ms).Posted?
            && Checked(Moved(s.balances, ms))
            && Moved(s.balances, ms).Keys == s.balances.Keys
            && (forall k :: NetAt(ms, k) == QtyAt(r.takes, k))
            && Restocked(s.balances, Moved(s.balances, ms), r.takes)
            && Linked(s.ledger + ms)
  {
    var r := s.reservations[id];
    ReversalsLinked(s, id);
    assert Sound(r, s.balances, s.ledger);
    ReversalsPutBack(r.takes, r.entries, s.balances);
    PuttingBackPosts(s.balances, |s.ledger|, Reversals(r.takes, r.entries), r.takes);
  }

  lemma LinkedAppend(ledger: seq<Movement>, ms: seq<Movement>)
    requires Linked(ledger)
    requires forall i :: 0 <= i < |ms| ==>
      && FaultIn(ms[i]).None?
      && (ms[i].reversalOf.Some? ==>
            && ms[i].reversalOf.value < |ledger|
            && ledger[ms[i].reversalOf.value].key == ms[i].key
            && ledger[ms[i].reversalOf.value].delta == -ms[i].delta)
    ensures Linked(ledger + ms)
  {
    var all := ledger + ms;
    forall i | 0 <= i < |all|
      ensures FaultIn(all[i]).None?
      ensures all[i].reversalOf.Some? ==>
                && all[i].reversalOf.value < i
                && all[all[i].reversalOf.value].key == all[i].key
                && all[all[i].reversalOf.value].delta == -all[i].delta
    {
      if i >= |ledger| {
        assert all[i] == ms[i - |ledger|];
      }
    }
  }

  lemma SoundGrows(r: Reservation, b: Balances, ledger: seq<Movement>, b': Balances, ms: seq<Movement>)
    requires Sound(r, b, ledger) && b.Keys <= b'.Keys
    ensures Sound(r, b', ledger + ms)
  {
  }

  /** What has to be shown of a step for the invariant to survive it. */
  lemma Reassemble(s: State, next: State, ms: seq<Movement>)
    requires Inv(s) && Checked(next.balances)
    requires next.ledger == s.ledger + ms && Linked(next.ledger)
    requires forall k :: At(next.balances, k)
                      == Balance(At(s.balances, k).onHand + NetAt(ms, k), ReservedBy(next.reservations, k))
    requires DistinctLines(next.reservations)
    requires forall i :: 0 <= i < |next.reservations| ==> Sound(next.reservations[i], next.balances, next.ledger)
    ensures Inv(next)
  {
    forall k ensures At(next.balances, k) == Balance(NetAt(next.ledger, k), ReservedBy(next.reservations, k)) {
      NetAppend(s.ledger, ms, k);
    }
  }

  /** The same, for a step that changes one reservation and keeps its line. */
  lemma ReassembleOne(s: State, next: State, ms: seq<Movement>, id: nat, r: Reservation)
    requires Inv(s) && Checked(next.balances) && s.balances.Keys <= next.balances.Keys
    requires next.ledger == s.ledger + ms && Linked(next.ledger)
    requires id < |s.reservations| && next.reservations == s.reservations[id := r]
    requires r.line == s.reservations[id].line && Sound(r, next.balances, next.ledger)
    requires forall k :: At(next.balances, k)
                      == Balance(At(s.balances, k).onHand + NetAt(ms, k),
                                 At(s.balances, k).reserved - Share(s.reservations[id], k) + Share(r, k))
    ensures Inv(next)
  {
    forall k ensures ReservedBy(next.reservations, k) == At(next.balances, k).reserved {
      ReservedUpdate(s.reservations, id, r, k);
    }
    forall i | 0 <= i < |next.reservations| ensures Sound(next.reservations[i], next.balances, next.ledger) {
      if i != id {
        SoundGrows(s.reservations[i], s.balances, s.ledger, next.balances, ms);
      }
    }
    Reassemble(s, next, ms);
  }

  lemma HeldIsReserved(s: State, id: nat)
    requires Inv(s) && id < |s.reservations| && Holds(s.reservations[id])
    ensures forall k :: 0 <= QtyAt(s.reservations[id].takes, k) <= At(s.balances, k).reserved
  {
    forall k ensures 0 <= QtyAt(s.reservations[id].takes, k) <= At(s.balances, k).reserved {
      ReservedAtLeast(s.reservations, id, k);
    }
  }

  // ---------------------------------------------------------------------------------------
  // Fulfilling
  // ---------------------------------------------------------------------------------------

  /** `after` is `b` without the units of `takes`, which were reserved. */
  ghost predicate Emptied(b: Balances, after: Balances, takes: seq<Take>) {
    forall k :: At(after, k) == Balance(At(b, k).onHand - QtyAt(takes, k), At(b, k).reserved - QtyAt(takes, k))
  }

  lemma EmptiedBalances(b: Balances, size: nat, takes: seq<Take>)
    requires Checked(b) && Allocations(takes, b) && takes != [] && Fits(b, takes)
    requires forall k :: QtyAt(takes, k) <= At(b, k).reserved
    ensures var after := LowerReserved(Moved(b, Shipments(takes)), takes);
            Checked(after) && after.Keys == b.Keys && Emptied(b, after, takes)
  {
    ShippedBalances(b, size, takes);
    LoweredBalances(Moved(b, Shipments(takes)), takes);
  }

  /** Whether what an open reservation holds can be shipped. */
  lemma ShipmentExactly(s: State, id: nat)
    requires Inv(s) && id < |s.reservations| && Holds(s.reservations[id]) && s.reservations[id].takes != []
    ensures var takes := s.reservations[id].takes;
            var p := PostingOf(s.balances, |s.ledger|, Shipments(takes));
            && (p.Posted? <==> Fits(s.balances, takes))
            && (!p.Posted? ==> p == Invalid(BELOW_RESERVED))
  {
    var takes := s.reservations[id].takes;
    assert Sound(s.reservations[id], s.balances, s.ledger);
    ShipmentAccepted(s.balances, |s.ledger|, takes);
    HeldIsReserved(s, id);
    if !Fits(s.balances, takes) {
      NeverShort(s.balances, takes);
      NoFaultMeans(Shipments(takes));
      assert |Shipments(takes)| == |takes|;
    }
  }

  /** Shipping what an open reservation holds, and then releasing it. */
  lemma ShipHeld(s: State, id: nat)
    requires Inv(s) && id < |s.reservations| && Holds(s.reservations[id]) && s.reservations[id].takes != []
    ensures var takes := s.reservations[id].takes;
            var p := PostingOf(s.balances, |s.ledger|, Shipments(takes));
            && (p.Posted? <==> Fits(s.balances, takes))
            && (!p.Posted? ==> p == Invalid(BELOW_RESERVED))
    ensures var takes := s.reservations[id].takes;
            var b := LowerReserved(Moved(s.balances, Shipments(takes)), takes);
            Fits(s.balances, takes) ==>
              && Checked(b) && b.Keys == s.balances.Keys
              && Emptied(s.balances, b, takes)
              && Linked(s.ledger + Shipments(takes))
  {
    ShipmentExactly(s, id);
    if Fits(s.balances, s.reservations[id].takes) {
      var takes, b := s.reservations[id].takes, s.balances;
      assert Sound(s.reservations[id], b, s.ledger);
      HeldIsReserved(s, id);
      EmptiedBalances(b, |s.ledger|, takes);
      LinkedAppend(s.ledger, Shipments(takes));
    }
  }

  /** Units that are reserved are on hand, so shipping them cannot run a location short. */
  lemma NeverShort(b: Balances, takes: seq<Take>)
    requires Checked(b) && Allocations(takes, b)
    requires forall k :: QtyAt(takes, k) <= At(b, k).reserved
    ensures ShortfallsIn(b, Shipments(takes), LockOrderOf(KeysOf(Shipments(takes)))) == []
    ensures forall m :: m in Shipments(takes) ==> FaultIn(m).None?
  {
    var ms := Shipments(takes);
    forall k ensures After(b, ms, k) >= 0 {
      ShipmentsNet(takes, k);
    }
    NoShortfallMeans(b, ms, LockOrderOf(KeysOf(ms)));
    forall m | m in ms ensures FaultIn(m).None? {
      var i :| 0 <= i < |ms| && ms[i] == m;
      assert takes[i].quantity >= 1;
    }
  }

  /**
    An open reservation that reserves is fulfilled exactly when, at every key it is allocated, the
    units nobody has reserved are at least as many as it takes. Otherwise nothing changes, and the
    answer is always that the movement would leave fewer units than are reserved: never that the
    reserved units are gone.
   */
  lemma FulfilledExactly(s: State, id: nat)
    requires Inv(s) && id < |s.reservations| && Holds(s.reservations[id])
    ensures FulfillStep(s, id).reply == Fulfilled <==> Fits(s.balances, s.reservations[id].takes)
    ensures FulfillStep(s, id).reply != Fulfilled ==> FulfillStep(s, id) == Transition(s, Refused(BELOW_RESERVED))
  {
    if s.reservations[id].takes != [] {
      ShipHeld(s, id);
    }
  }

  lemma EmptiedKeeps(s: State, id: nat, after: Balances)
    requires Inv(s) && id < |s.reservations| && Holds(s.reservations[id])
    requires Checked(after) && after.Keys == s.balances.Keys && Emptied(s.balances, after, s.reservations[id].takes)
    requires Linked(s.ledger + Shipments(s.reservations[id].takes))
    ensures var next := State(after, s.ledger + Shipments(s.reservations[id].takes), Resolved(s, id, Consumed), s.mode);
            Inv(next) && forall k :: Free(next.balances, k) == Free(s.balances, k)
  {
    var r := s.reservations[id];
    var next := State(after, s.ledger + Shipments(r.takes), Resolved(s, id, Consumed), s.mode);
    assert Sound(r, s.balances, s.ledger);
    forall k ensures NetAt(Shipments(r.takes), k) == -QtyAt(r.takes, k) {
      ShipmentsNet(r.takes, k);
    }
    ReassembleOne(s, next, Shipments(r.takes), id, r.(status := Consumed));
  }

  /** Fulfilling what is held and fits. */
  lemma FulfillHeldKeeps(s: State, id: nat)
    requires Inv(s) && id < |s.reservations| && Holds(s.reservations[id]) && s.reservations[id].takes != []
    requires Fits(s.balances, s.reservations[id].takes)
    ensures Inv(FulfillStep(s, id).next)
    ensures forall k :: Free(FulfillStep(s, id).next.balances, k) == Free(s.balances, k)
    ensures FulfillStep(s, id).next.balances.Keys == s.balances.Keys
  {
    var takes := s.reservations[id].takes;
    ShipHeld(s, id);
    EmptiedKeeps(s, id, LowerReserved(Moved(s.balances, Shipments(takes)), takes));
  }

  lemma FulfillKeeps(s: State, id: nat)
    requires Inv(s)
    ensures Inv(FulfillStep(s, id).next)
    ensures forall k :: Free(FulfillStep(s, id).next.balances, k) == Free(s.balances, k)
    ensures FulfillStep(s, id).next.balances.Keys == s.balances.Keys
  {
    if id < |s.reservations| && s.reservations[id].status == Open {
      var r := s.reservations[id];
      assert Sound(r, s.balances, s.ledger);
      if r.mode == ReserveUntilFulfilled && r.takes != [] {
        FulfilledExactly(s, id);
        if Fits(s.balances, r.takes) {
          FulfillHeldKeeps(s, id);
        }
      } else {
        var next := FulfillStep(s, id).next;
        assert next.ledger == s.ledger + [];
        ReassembleOne(s, next, [], id, r.(status := Consumed));
      }
    }
  }
}
