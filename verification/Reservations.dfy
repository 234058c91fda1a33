/**
  The inventory as one value, and every inventory transaction as a step from one value to the
  next (packages/inventory/src/reservations.ts, packages/inventory/src/adjustments.ts).

  A refused transaction is rolled back, so its step returns the state it was given.
 */
module Reservations {
  import opened Stock
  import opened Allocation
  import opened Ledger

  datatype Mode = ReserveUntilFulfilled | ConsumeImmediately

  datatype Status = Open | Consumed | Released

  /** Allocation row n of a reservation is `takes[n]`; `entries[n]` is the ledger entry that
      consumed it, when its units were consumed rather than reserved. */
  datatype Reservation = Reservation(
    line: nat, quantity: int, mode: Mode, status: Status, shortage: int, splitBlocked: bool,
    takes: seq<Take>, entries: seq<Option<nat>>)

  /** A reservation's id is its position. `mode` is the mode new reservations are recorded in. */
  datatype State = State(balances: Balances, ledger: seq<Movement>, reservations: seq<Reservation>, mode: Mode)

  /** Safety stock: a location's own figure, else the item's, else the business default. */
  datatype SafetyLevels = SafetyLevels(businessDefault: nat, itemOverride: map<nat, nat>, locationOverride: map<Key, nat>)

  /** An order line together with what the transaction reads about it: what one ordered unit
      consumes (nothing, when the item or its recipe is missing), and the eligible locations. */
  datatype Request = Request(
    line: nat, quantity: int, expansion: Option<seq<Component>>, order: seq<nat>, split: bool, safety: SafetyLevels)

  datatype Change = Absolute(quantity: int) | Delta(quantityDelta: int)

  datatype View = View(
    reservationId: nat, status: Status, mode: Mode, quantity: int, supplied: int, shortage: int,
    splitBlocked: bool, takes: seq<Take>)

  datatype Reply =
    | Recorded(reservation: View)
    | AlreadyRecorded(reservation: View)
    | Fulfilled
    | ReleasedUnits(restored: int)
    | Migrated
    | NotMigrated
    | Adjusted(entryId: nat, onHand: int)
    | Unchanged(onHand: int)
    | Transferred(entryIds: seq<nat>)
    | Reversed(entryId: nat, onHand: int)
    | AlreadyReversed(entryId: nat)
    | NotFound
    | AlreadyResolved(status: Status)
    | Short(shortfalls: seq<Shortfall>)
    | Refused(reason: string)
    | Threw(error: string)

  datatype Transition = Transition(next: State, reply: Reply)

  const NOT_WHOLE := "an order line is a whole positive number of units"
  const MOVED_MEANWHILE := "the units moved while the order was being recorded"
  const NO_LONGER_THERE := "the reserved units are no longer there"
  const NOT_RESTORED := "the units could not be restored"
  const UNEXPLAINED := "a stated reason is required"
  const NOT_POSITIVE := "a transfer moves a whole positive number of units"
  const SAME_LOCATION := "a transfer needs two different locations"
  const BAD_COUNT := "an absolute quantity is a whole number of units, and never negative"
  const REVERSAL_OF_REVERSAL := "a reversal is itself corrected by a new adjustment, not by another reversal"

  // ---------------------------------------------------------------------------------------
  // Reading
  // ---------------------------------------------------------------------------------------

  function SafetyStock(s: SafetyLevels, k: Key): nat {
    if k in s.locationOverride then s.locationOverride[k]
    else if k.item in s.itemOverride then s.itemOverride[k.item]
    else s.businessDefault
  }

  /** Available-to-sell of the components at the eligible locations that have a row. */
  function AvailableIn(b: Balances, safety: SafetyLevels, components: seq<Component>, order: seq<nat>): Availability {
    map k | k in b && k.location in order && HasItem(components, k.item)
      :: Max(0, b[k].onHand - b[k].reserved - SafetyStock(safety, k))
  }

  function FindLine(rs: seq<Reservation>, line: nat): (r: Option<nat>)
    ensures r.Some? ==> r.value < |rs| && rs[r.value].line == line
    ensures r.None? ==> forall i :: 0 <= i < |rs| ==> rs[i].line != line
  {
    if rs == [] then None
    else if rs[|rs| - 1].line == line then Some(|rs| - 1)
    else FindLine(rs[..|rs| - 1], line)
  }

  function ViewOf(id: nat, r: Reservation): View {
    View(id, r.status, r.mode, r.quantity, r.quantity - r.shortage, r.shortage, r.splitBlocked, r.takes)
  }

  // ---------------------------------------------------------------------------------------
  // Writing
  // ---------------------------------------------------------------------------------------

  function Shipments(takes: seq<Take>): seq<Movement> {
    seq(|takes|, i requires 0 <= i < |takes| => Movement(takes[i].key, Shipment, -takes[i].quantity, None))
  }

  /** Reversals of the allocations that a ledger entry consumed; the others are passed over. */
  function Reversals(takes: seq<Take>, entries: seq<Option<nat>>): seq<Movement>
    requires |takes| == |entries|
  {
    if takes == [] then []
    else
      var n := |takes| - 1;
      Reversals(takes[..n], entries[..n])
      + if entries[n].Some? then [Movement(takes[n].key, Reversal, takes[n].quantity, entries[n])] else []
  }

  /** Units that would be put back by those reversals. */
  function Reversible(takes: seq<Take>, entries: seq<Option<nat>>): int
    requires |takes| == |entries|
  {
    if takes == [] then 0
    else
      var n := |takes| - 1;
      Reversible(takes[..n], entries[..n]) + if entries[n].Some? then takes[n].quantity else 0
  }

  function TotalQty(takes: seq<Take>): int {
    if takes == [] then 0 else TotalQty(takes[..|takes| - 1]) + takes[|takes| - 1].quantity
  }

  function RaiseReserved(b: Balances, takes: seq<Take>): Balances {
    map k | k in b :: Balance(b[k].onHand, b[k].reserved + QtyAt(takes, k))
  }

  function LowerReserved(b: Balances, takes: seq<Take>): Balances {
    map k | k in b :: Balance(b[k].onHand, Max(0, b[k].reserved - QtyAt(takes, k)))
  }

  function Somes(ids: seq<nat>): seq<Option<nat>> {
    seq(|ids|, i requires 0 <= i < |ids| => Some(ids[i]))
  }

  function Nones(n: nat): seq<Option<nat>> {
    seq(n, _ => None)
  }

  // ---------------------------------------------------------------------------------------
  // Reserving
  // ---------------------------------------------------------------------------------------

  function ReserveStep(s: State, r: Request): Transition {
    if r.quantity < 1 then Transition(s, Refused(NOT_WHOLE))
    else match FindLine(s.reservations, r.line)
      case Some(id) => Transition(s, AlreadyRecorded(ViewOf(id, s.reservations[id])))
      case None =>
        match r.expansion
        case None => Transition(s, NotFound)
        case Some(components) =>
          match PlanAllocationOf(r.quantity, components, AvailableIn(s.balances, r.safety, components, r.order), r.order, r.split)
          case Err(e) => Transition(s, Threw(e))
          case Ok(plan) => RecordStep(s, r, plan)
  }

  function RecordStep(s: State, r: Request, plan: Plan): Transition {
    var id := |s.reservations|;
    if s.mode == ConsumeImmediately && plan.takes != [] then
      var ms := Shipments(plan.takes);
      match PostingOf(s.balances, |s.ledger|, ms)
      case Insufficient(_) => Transition(s, Refused(MOVED_MEANWHILE))
      case Invalid(reason) => Transition(s, Refused(reason))
      case Posted(ids, _) =>
        var made := Reservation(r.line, r.quantity, s.mode, Open, plan.shortage, plan.splitBlocked, plan.takes, Somes(ids));
        Transition(State(Moved(s.balances, ms), s.ledger + ms, s.reservations + [made], s.mode), Recorded(ViewOf(id, made)))
    else
      var made := Reservation(r.line, r.quantity, s.mode, Open, plan.shortage, plan.splitBlocked, plan.takes, Nones(|plan.takes|));
      Transition(s.(balances := RaiseReserved(s.balances, plan.takes), reservations := s.reservations + [made]),
                 Recorded(ViewOf(id, made)))
  }

  // ---------------------------------------------------------------------------------------
  // Resolving
  // ---------------------------------------------------------------------------------------

  function Resolved(s: State, id: nat, status: Status): seq<Reservation>
    requires id < |s.reservations|
  {
    s.reservations[id := s.reservations[id].(status := status)]
  }

  function FulfillStep(s: State, id: nat): Transition {
    if id >= |s.reservations| then Transition(s, NotFound)
    else
      var r := s.reservations[id];
      if r.status != Open then Transition(s, AlreadyResolved(r.status))
      else if r.mode == ReserveUntilFulfilled && r.takes != [] then
        var ms := Shipments(r.takes);
        match PostingOf(s.balances, |s.ledger|, ms)
        case Insufficient(_) => Transition(s, Refused(NO_LONGER_THERE))
        case Invalid(reason) => Transition(s, Refused(reason))
        case Posted(_, _) =>
          Transition(State(LowerReserved(Moved(s.balances, ms), r.takes), s.ledger + ms, Resolved(s, id, Consumed), s.mode),
                     Fulfilled)
      else Transition(s.(reservations := Resolved(s, id, Consumed)), Fulfilled)
  }

  function ReleaseStep(s: State, id: nat, explained: bool): Transition
    requires id < |s.reservations| ==> |s.reservations[id].takes| == |s.reservations[id].entries|
  {
    if !explained then Transition(s, Refused(UNEXPLAINED))
    else if id >= |s.reservations| then Transition(s, NotFound)
    else
      var r := s.reservations[id];
      if r.status != Open then Transition(s, AlreadyResolved(r.status))
      else if r.mode == ConsumeImmediately then
        var ms := Reversals(r.takes, r.entries);
        if ms == [] then Transition(s.(reservations := Resolved(s, id, Released)), ReleasedUnits(0))
        else match PostingOf(s.balances, |s.ledger|, ms)
          case Insufficient(_) => Transition(s, Refused(NOT_RESTORED))
          case Invalid(reason) => Transition(s, Refused(reason))
          case Posted(_, _) =>
            Transition(State(Moved(s.balances, ms), s.ledger + ms, Resolved(s, id, Released), s.mode),
                       ReleasedUnits(Reversible(r.takes, r.entries)))
      else
        Transition(s.(balances := LowerReserved(s.balances, r.takes), reservations := Resolved(s, id, Released)),
                   ReleasedUnits(TotalQty(r.takes)))
  }

  /** Moves one open reservation onto the other mode. */
  function MigrateStep(s: State, id: nat, to: Mode): Transition
    requires id < |s.reservations| ==> |s.reservations[id].takes| == |s.reservations[id].entries|
  {
    if id >= |s.reservations| then Transition(s, NotMigrated)
    else
      var r := s.reservations[id];
      if r.status != Open || r.mode == to then Transition(s, NotMigrated)
      else if r.takes == [] then Transition(s.(reservations := s.reservations[id := r.(mode := to)]), Migrated)
      else if to == ConsumeImmediately then
        var ms := Shipments(r.takes);
        match PostingOf(s.balances, |s.ledger|, ms)
        case Insufficient(_) => Transition(s, NotMigrated)
        case Invalid(_) => Transition(s, NotMigrated)
        case Posted(ids, _) =>
          Transition(State(LowerReserved(Moved(s.balances, ms), r.takes), s.ledger + ms,
                           s.reservations[id := r.(mode := to, entries := Somes(ids))], s.mode), Migrated)
      else
        var ms := Reversals(r.takes, r.entries);
        var moved := s.reservations[id := r.(mode := to, entries := Nones(|r.takes|))];
        if ms == [] then
          Transition(s.(balances := RaiseReserved(s.balances, r.takes), reservations := moved), Migrated)
        else match PostingOf(s.balances, |s.ledger|, ms)
          case Insufficient(_) => Transition(s, NotMigrated)
          case Invalid(_) => Transition(s, NotMigrated)
          case Posted(_, _) =>
            Transition(State(RaiseReserved(Moved(s.balances, ms), r.takes), s.ledger + ms, moved, s.mode), Migrated)
  }

  // ---------------------------------------------------------------------------------------
  // Adjusting, transferring, reversing
  // ---------------------------------------------------------------------------------------

  function FailureOf(p: Posting): Reply
    requires !p.Posted?
  {
    match p
    case Insufficient(shortfalls) => Short(shortfalls)
    case Invalid(reason) => Refused(reason)
  }

  function DeltaFor(change: Change, onHand: int): int {
    match change
    case Absolute(quantity) => quantity - onHand
    case Delta(d) => d
  }

  function AdjustBy(s: State, k: Key, d: int): Transition {
    var onHand := At(s.balances, k).onHand;
    if d == 0 then Transition(s, Unchanged(onHand))
    else
      var ms := [Movement(k, Adjustment, d, None)];
      var p := PostingOf(s.balances, |s.ledger|, ms);
      if !p.Posted? then Transition(s, FailureOf(p))
      else Transition(s.(balances := Moved(s.balances, ms), ledger := s.ledger + ms), Adjusted(|s.ledger|, onHand + d))
  }

  function AdjustStep(s: State, k: Key, change: Change, explained: bool): Transition {
    if change.Absolute? && change.quantity < 0 then Transition(s, Refused(BAD_COUNT))
    else if !explained then Transition(s, Refused(UNEXPLAINED))
    else AdjustBy(s, k, DeltaFor(change, At(s.balances, k).onHand))
  }

  function TransferMovements(item: nat, from: nat, to: nat, quantity: int): seq<Movement> {
    [Movement(Key(item, from), TransferOut, -quantity, None), Movement(Key(item, to), TransferIn, quantity, None)]
  }

  function TransferStep(s: State, item: nat, from: nat, to: nat, quantity: int): Transition {
    if quantity <= 0 then Transition(s, Refused(NOT_POSITIVE))
    else if from == to then Transition(s, Refused(SAME_LOCATION))
    else
      var ms := TransferMovements(item, from, to, quantity);
      var p := PostingOf(s.balances, |s.ledger|, ms);
      if !p.Posted? then Transition(s, FailureOf(p))
      else Transition(s.(balances := Moved(s.balances, ms), ledger := s.ledger + ms), Transferred(p.entryIds))
  }

  function FindReversal(ledger: seq<Movement>, entryId: nat): (r: Option<nat>)
    ensures r.Some? ==> r.value < |ledger| && ledger[r.value].reversalOf == Some(entryId)
    ensures r.None? ==> forall i :: 0 <= i < |ledger| ==> ledger[i].reversalOf != Some(entryId)
  {
    if ledger == [] then None
    else if ledger[|ledger| - 1].reversalOf == Some(entryId) then Some(|ledger| - 1)
    else FindReversal(ledger[..|ledger| - 1], entryId)
  }

  function ReverseStep(s: State, entryId: nat, explained: bool): Transition {
    if !explained then Transition(s, Refused(UNEXPLAINED))
    else if entryId >= |s.ledger| then Transition(s, NotFound)
    else
      var original := s.ledger[entryId];
      if original.kind == Reversal then Transition(s, Refused(REVERSAL_OF_REVERSAL))
      else match FindReversal(s.ledger, entryId)
        case Some(existing) => Transition(s, AlreadyReversed(existing))
        case None =>
          var ms := [Movement(original.key, Reversal, -original.delta, Some(entryId))];
          var p := PostingOf(s.balances, |s.ledger|, ms);
          if !p.Posted? then Transition(s, FailureOf(p))
          else Transition(s.(balances := Moved(s.balances, ms), ledger := s.ledger + ms),
                          Reversed(|s.ledger|, After(s.balances, ms, original.key)))
  }

  // ---------------------------------------------------------------------------------------
  // Runs
  // ---------------------------------------------------------------------------------------

  datatype Op =
    | Reserve(request: Request)
    | Fulfill(id: nat)
    | Release(id: nat, explained: bool)
    | Migrate(id: nat, to: Mode)
    | SetMode(to: Mode)
    | Adjust(key: Key, change: Change, explained: bool)
    | Transfer(item: nat, source: nat, destination: nat, quantity: int)
    | Reverse(entryId: nat, explained: bool)

  /** What the catalogue's own constraints guarantee of a request: a recipe lists distinct items
      in positive quantities, and a location is listed once. */
  ghost predicate ValidRequest(r: Request) {
    && Distinct(r.order)
    && (r.expansion.Some? ==> PositiveUnits(r.expansion.value) && DistinctItems(r.expansion.value))
  }

  ghost predicate ValidOp(op: Op) {
    op.Reserve? ==> ValidRequest(op.request)
  }

  /** Every reservation carries one ledger reference per allocation. */
  ghost predicate Paired(s: State) {
    forall i :: 0 <= i < |s.reservations| ==> |s.reservations[i].takes| == |s.reservations[i].entries|
  }

  ghost function Step(s: State, op: Op): Transition
    requires Paired(s)
  {
    match op
    case Reserve(r) => ReserveStep(s, r)
    case Fulfill(id) => FulfillStep(s, id)
    case Release(id, explained) => ReleaseStep(s, id, explained)
    case Migrate(id, to) => MigrateStep(s, id, to)
    case SetMode(to) => Transition(s.(mode := to), Migrated)
    case Adjust(k, change, explained) => AdjustStep(s, k, change, explained)
    case Transfer(item, from, to, quantity) => TransferStep(s, item, from, to, quantity)
    case Reverse(entryId, explained) => ReverseStep(s, entryId, explained)
  }
}
