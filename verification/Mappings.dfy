/**
  Channel mappings and their version history (packages/inventory/src/mappings.ts and
  packages/inventory/src/activation.ts): what each operation does to the mapping row, to its
  location rows and to the append-only table of versions.

  A mapping's id is its position; selected locations are a set because their rows are unordered.
 */
module Mappings {
  import opened Stock

  datatype Status = Draft | Approved | Active | Paused | Archived

  datatype Mapping = Mapping(
    entity: nat,
    item: nat,
    buffer: int,
    cap: Option<int>,
    status: Status,
    pauseReason: Option<string>,
    version: nat,
    approvalRecorded: bool,
    activationRecorded: bool,
    archivalRecorded: bool)

  /** What a mapping meant at one time. */
  datatype Definition = Definition(item: nat, buffer: int, cap: Option<int>, locations: set<nat>, status: Status)

  datatype Version = Version(mapping: nat, number: nat, definition: Definition)

  datatype Tables = Tables(mappings: seq<Mapping>, locations: seq<set<nat>>, versions: seq<Version>)

  /** A field that a revision may leave alone. */
  datatype Field<T> = Keep | Set(value: T)

  datatype Proposal = Proposal(entity: nat, item: nat, buffer: Option<int>, cap: Option<int>, locations: seq<nat>)

  datatype Revision = Revision(
    item: Field<nat>, buffer: Field<int>, cap: Field<Option<int>>, locations: Field<seq<nat>>, explained: bool)

  /** What the last import knows about a channel entity. `siblings` are the eligible, present
      variations of its listing, when it is one. */
  datatype Entity = Entity(eligible: bool, missing: bool, siblings: Option<set<nat>>, quantity: Option<int>)

  datatype Blocker = Ineligible | Missing | Unmapped | Disagree | NoLocation

  datatype Reply =
    | Proposed(id: nat)
    | AlreadyMapped(existing: Option<nat>)
    | Invalid(reason: string)
    | NotFound
    | ApprovedAs(number: nat)
    | NotApprovable(status: Status)
    | RevisedAs(number: nat, status: Status)
    | ArchivedAs(number: nat)
    | Activated
    | NotApproved(status: Status)
    | Blocked(blockers: seq<Blocker>)
    | PausedNow
    | NotActive(status: Status)

  datatype Transition = Transition(tables: Tables, reply: Reply)

  const BAD_BUFFER := "a channel buffer is a whole number of units, and never negative"
  const BAD_CAP := "a channel cap is a whole number of units, and never negative"
  const NO_LOCATION := "a mapping draws stock from at least one location"
  const INELIGIBLE_LOCATION := "every selected location must be an active location of this business"
  const NO_REASON := "a mapping change needs a stated reason"
  const REPOINTED := "the mapping was repointed at a different canonical item and needs reactivating"

  // ---------------------------------------------------------------------------------------
  // Constraints of the table
  // ---------------------------------------------------------------------------------------

  predicate Checked(m: Mapping) {
    && m.buffer >= 0
    && (m.cap.Some? ==> m.cap.value >= 0)
    && m.version >= 1
    && (m.status == Approved || m.status == Active || m.status == Paused ==> m.approvalRecorded)
    && (m.status == Active ==> m.activationRecorded)
    && (m.status == Archived <==> m.archivalRecorded)
    && (m.status == Paused <==> m.pauseReason.Some?)
  }

  predicate Live(m: Mapping) {
    m.status != Archived
  }

  /** The partial unique index on the entity of mappings that are not archived. */
  predicate OneLivePerEntity(ms: seq<Mapping>) {
    forall i, j :: 0 <= i < j < |ms| && Live(ms[i]) && Live(ms[j]) ==> ms[i].entity != ms[j].entity
  }

  /** The live mapping of an entity, if it has one. */
  function LiveFor(ms: seq<Mapping>, entity: nat): (r: Option<nat>)
    ensures r.Some? ==> r.value < |ms| && Live(ms[r.value]) && ms[r.value].entity == entity
    ensures r.None? ==> forall i :: 0 <= i < |ms| && Live(ms[i]) ==> ms[i].entity != entity
  {
    if ms == [] then None
    else
      var before := LiveFor(ms[..|ms| - 1], entity);
      if before.Some? then before
      else if Live(ms[|ms| - 1]) && ms[|ms| - 1].entity == entity then Some(|ms| - 1)
      else None
  }

  // ---------------------------------------------------------------------------------------
  // Pieces of the operations
  // ---------------------------------------------------------------------------------------

  function RulesFault(buffer: Option<int>, cap: Option<int>): Option<string> {
    if buffer.Some? && buffer.value < 0 then Some(BAD_BUFFER)
    else if cap.Some? && cap.value < 0 then Some(BAD_CAP)
    else None
  }

  function ToSet(s: seq<nat>): set<nat> {
    set x | x in s
  }

  function DefinitionOf(m: Mapping, locations: set<nat>): Definition {
    Definition(m.item, m.buffer, m.cap, locations, m.status)
  }

  function Or<T>(f: Field<T>, current: T): T {
    if f.Set? then f.value else current
  }

  function Given<T>(f: Field<T>): Option<T> {
    if f.Set? then Some(f.value) else None
  }

  /** Writes a mapping's new row and records it as its next version. */
  function Recorded(t: Tables, id: nat, m: Mapping, locations: set<nat>): Tables
    requires id < |t.mappings| == |t.locations|
  {
    Tables(t.mappings[id := m], t.locations[id := locations],
           t.versions + [Version(id, m.version, DefinitionOf(m, locations))])
  }

  predicate WellFormed(t: Tables) {
    |t.mappings| == |t.locations|
  }

  // ---------------------------------------------------------------------------------------
  // Operations
  // ---------------------------------------------------------------------------------------

  function Drafted(p: Proposal): Mapping {
    Mapping(p.entity, p.item, if p.buffer.Some? then p.buffer.value else 0, p.cap, Draft, None, 1, false, false, false)
  }

  function ProposeStep(t: Tables, p: Proposal, active: set<nat>): Transition {
    var fault := RulesFault(p.buffer, p.cap);
    if fault.Some? then Transition(t, Invalid(fault.value))
    else if p.locations == [] then Transition(t, Invalid(NO_LOCATION))
    else if !(ToSet(p.locations) <= active) then Transition(t, Invalid(INELIGIBLE_LOCATION))
    else if LiveFor(t.mappings, p.entity).Some? then Transition(t, AlreadyMapped(LiveFor(t.mappings, p.entity)))
    else
      var m := Drafted(p);
      Transition(
        Tables(t.mappings + [m], t.locations + [ToSet(p.locations)],
               t.versions + [Version(|t.mappings|, 1, DefinitionOf(m, ToSet(p.locations)))]),
        Proposed(|t.mappings|))
  }

  function ApproveStep(t: Tables, id: nat): Transition
    requires WellFormed(t)
  {
    if id >= |t.mappings| then Transition(t, NotFound)
    else if t.mappings[id].status != Draft then Transition(t, NotApprovable(t.mappings[id].status))
    else
      var m := t.mappings[id].(status := Approved, approvalRecorded := true, version := t.mappings[id].version + 1);
      Transition(Recorded(t, id, m, t.locations[id]), ApprovedAs(m.version))
  }

  function Revised(m: Mapping, r: Revision): Mapping {
    var item := Or(r.item, m.item);
    var reassigned := item != m.item;
    var status := if reassigned && (m.status == Active || m.status == Paused) then Paused else m.status;
    var pauseReason := if status != Paused then None else if reassigned then Some(REPOINTED) else m.pauseReason;
    m.(item := item, buffer := Or(r.buffer, m.buffer), cap := Or(r.cap, m.cap),
       status := status, pauseReason := pauseReason, version := m.version + 1)
  }

  function ReviseStep(t: Tables, id: nat, r: Revision, active: set<nat>): Transition
    requires WellFormed(t)
  {
    var fault := RulesFault(Given(r.buffer), if r.cap.Set? then r.cap.value else None);
    if fault.Some? then Transition(t, Invalid(fault.value))
    else if !r.explained then Transition(t, Invalid(NO_REASON))
    else if r.locations == Set([]) then Transition(t, Invalid(NO_LOCATION))
    else if id >= |t.mappings| || t.mappings[id].status == Archived then Transition(t, NotFound)
    else if r.locations.Set? && !(ToSet(r.locations.value) <= active) then Transition(t, Invalid(INELIGIBLE_LOCATION))
    else
      var m := Revised(t.mappings[id], r);
      var locations := if r.locations.Set? then ToSet(r.locations.value) else t.locations[id];
      Transition(Recorded(t, id, m, locations), RevisedAs(m.version, m.status))
  }

  function ArchiveStep(t: Tables, id: nat): Transition
    requires WellFormed(t)
  {
    if id >= |t.mappings| || t.mappings[id].status == Archived then Transition(t, NotFound)
    else
      var m := t.mappings[id].(status := Archived, pauseReason := None, archivalRecorded := true, version := t.mappings[id].version + 1);
      Transition(Recorded(t, id, m, t.locations[id]), ArchivedAs(m.version))
  }

  /** Some sellable variation of the listing has no live mapping. */
  predicate Incomplete(ms: seq<Mapping>, siblings: set<nat>) {
    exists e :: e in siblings && LiveFor(ms, e).None?
  }

  function Blockers(t: Tables, id: nat, e: Entity, initialized: bool, target: int): seq<Blocker>
    requires WellFormed(t) && id < |t.mappings|
  {
    (if !e.eligible then [Ineligible] else [])
    + (if e.missing then [Missing] else [])
    + (if e.siblings.Some? && Incomplete(t.mappings, e.siblings.value) then [Unmapped] else [])
    + (if !initialized && e.quantity.Some? && e.quantity.value != target then [Disagree] else [])
    + (if t.locations[id] == {} then [NoLocation] else [])
  }

  /** `target` is what would be advertised; `adopted` is what recording the starting quantity
      answered, when there was one to record. */
  function ActivateStep(t: Tables, id: nat, e: Entity, initialized: bool, target: int, adopted: Option<string>): Transition
    requires WellFormed(t)
  {
    if id >= |t.mappings| then Transition(t, NotFound)
    else if t.mappings[id].status != Approved && t.mappings[id].status != Paused then
      Transition(t, NotApproved(t.mappings[id].status))
    else if Blockers(t, id, e, initialized, target) != [] then
      Transition(t, Blocked(Blockers(t, id, e, initialized, target)))
    else if adopted.Some? then Transition(t, Invalid(adopted.value))
    else
      var m := t.mappings[id].(status := Active, pauseReason := None, activationRecorded := true, version := t.mappings[id].version + 1);
      Transition(Recorded(t, id, m, t.locations[id]), Activated)
  }

  function PauseStep(t: Tables, id: nat, reason: string): Transition
    requires WellFormed(t)
  {
    if id >= |t.mappings| then Transition(t, NotFound)
    else if t.mappings[id].status != Active then Transition(t, NotActive(t.mappings[id].status))
    else
      var m := t.mappings[id].(status := Paused, pauseReason := Some(reason), version := t.mappings[id].version + 1);
      Transition(Recorded(t, id, m, t.locations[id]), PausedNow)
  }

  // ---------------------------------------------------------------------------------------
  // May this mapping be written to?
  // ---------------------------------------------------------------------------------------

  datatype WriteTarget =
    | Writable(entity: nat, item: nat, buffer: int, cap: Option<int>, locations: set<nat>)
    | NoMapping
    | Inactive(status: Status, reason: Option<string>)
    | IneligibleEntity
    | MissingEntity

  function ResolveWriteTarget(t: Tables, id: nat, e: Entity): WriteTarget
    requires WellFormed(t)
  {
    if id >= |t.mappings| then NoMapping
    else
      var m := t.mappings[id];
      if m.status != Active then Inactive(m.status, m.pauseReason)
      else if !e.eligible then IneligibleEntity
      else if e.missing then MissingEntity
      else Writable(m.entity, m.item, m.buffer, m.cap, t.locations[id])
  }
}
