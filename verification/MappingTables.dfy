/**
  The mapping operations as they run: one transaction each, over three tables in place.
 */
module MappingTables {
  import opened Stock
  import opened Mappings
  import opened MappingRuns

  class Database {
    var mappings: seq<Mapping>
    var locations: seq<set<nat>>
    var versions: seq<Version>

    ghost function Value(): Tables
      reads this
    {
      Tables(mappings, locations, versions)
    }

    ghost predicate Valid()
      reads this
    {
      Inv(Value())
    }

    constructor ()
      ensures Valid() && Value() == EMPTY
    {
      mappings, locations, versions := [], [], [];
    }

    /** The row's CHECK constraints are the caller's to meet. */
    method UpdateRow(id: nat, row: Mapping)
      requires id < |mappings| && Checked(row)
      modifies this`mappings
      ensures locations == old(locations) && versions == old(versions)
      ensures mappings == old(mappings)[id := row]
    {
      mappings := mappings[id := row];
    }

    /** A mapping's version numbers are unique. */
    method RecordVersion(id: nat, number: nat, definition: Definition)
      requires forall i :: 0 <= i < |versions| && versions[i].mapping == id ==> versions[i].number != number
      modifies this`versions
      ensures mappings == old(mappings) && locations == old(locations)
      ensures versions == old(versions) + [Version(id, number, definition)]
    {
      versions := versions + [Version(id, number, definition)];
    }

    method Propose(p: Proposal, active: set<nat>) returns (reply: Reply)
      requires Valid()
      modifies this
      ensures Valid()
      ensures Transition(Value(), reply) == ProposeStep(old(Value()), p, active)
    {
      ProposeKeeps(Value(), p, active);
      var fault := RulesFault(p.buffer, p.cap);
      if fault.Some? {
        return Invalid(fault.value);
      }
      if p.locations == [] {
        return Invalid(NO_LOCATION);
      }
      var selected := ToSet(p.locations);
      if !(selected <= active) {
        return Invalid(INELIGIBLE_LOCATION);
      }
      var existing := LiveFor(mappings, p.entity);
      if existing.Some? {
        return AlreadyMapped(existing);
      }
      var id, row := |mappings|, Drafted(p);
      mappings := mappings + [row];
      locations := locations + [selected];
      RecordVersion(id, 1, DefinitionOf(row, selected));
      reply := Proposed(id);
    }

    method Approve(id: nat) returns (reply: Reply)
      requires Valid()
      modifies this
      ensures Valid()
      ensures Transition(Value(), reply) == ApproveStep(old(Value()), id)
    {
      StatusKeeps(Value(), Op.Approve(id));
      if id >= |mappings| {
        return NotFound;
      }
      var current := mappings[id];
      if current.status != Draft {
        return NotApprovable(current.status);
      }
      var number := current.version + 1;
      NextNumberIsFree(Value(), id);
      UpdateRow(id, current.(status := Approved, approvalRecorded := true, version := number));
      RecordVersion(id, number, Definition(current.item, current.buffer, current.cap, locations[id], Approved));
      SameLocations(locations, id);
      reply := ApprovedAs(number);
    }

    method Revise(id: nat, r: Revision, active: set<nat>) returns (reply: Reply)
      requires Valid()
      modifies this
      ensures Valid()
      ensures Transition(Value(), reply) == ReviseStep(old(Value()), id, r, active)
    {
      ReviseKeeps(Value(), id, r, active);
      var fault := RulesFault(Given(r.buffer), if r.cap.Set? then r.cap.value else None);
      if fault.Some? {
        return Invalid(fault.value);
      }
      if !r.explained {
        return Invalid(NO_REASON);
      }
      if r.locations == Set([]) {
        return Invalid(NO_LOCATION);
      }
      if id >= |mappings| || mappings[id].status == Archived {
        return NotFound;
      }
      var current := mappings[id];
      NextNumberIsFree(Value(), id);
      SameLocations(locations, id);
      if r.locations.Set? {
        var selected := ToSet(r.locations.value);
        if !(selected <= active) {
          return Invalid(INELIGIBLE_LOCATION);
        }
        locations := locations[id := selected];
      }
      var row := Revised(current, r);
      UpdateRow(id, row);
      RecordVersion(id, row.version, DefinitionOf(row, locations[id]));
      reply := RevisedAs(row.version, row.status);
    }

    method Archive(id: nat) returns (reply: Reply)
      requires Valid()
      modifies this
      ensures Valid()
      ensures Transition(Value(), reply) == ArchiveStep(old(Value()), id)
    {
      StatusKeeps(Value(), Op.Archive(id));
      if id >= |mappings| || mappings[id].status == Archived {
        return NotFound;
      }
      var current := mappings[id];
      var number := current.version + 1;
      NextNumberIsFree(Value(), id);
      UpdateRow(id, current.(status := Archived, pauseReason := None, archivalRecorded := true, version := number));
      RecordVersion(id, number, Definition(current.item, current.buffer, current.cap, locations[id], Archived));
      SameLocations(locations, id);
      reply := ArchivedAs(number);
    }

    /** Records the next version before the row is changed, from the row and its locations. */
    method BumpVersion(id: nat, status: Status) returns (number: nat)
      requires Valid() && id < |mappings|
      modifies this`versions
      ensures mappings == old(mappings) && locations == old(locations)
      ensures number == mappings[id].version + 1
      ensures versions == old(versions)
                + [Version(id, number, DefinitionOf(mappings[id], locations[id]).(status := status))]
    {
      number := mappings[id].version + 1;
      NextNumberIsFree(Value(), id);
      RecordVersion(id, number, DefinitionOf(mappings[id], locations[id]).(status := status));
    }

    method Activate(id: nat, e: Entity, initialized: bool, target: int, adopted: Option<string>) returns (reply: Reply)
      requires Valid()
      modifies this
      ensures Valid()
      ensures Transition(Value(), reply) == ActivateStep(old(Value()), id, e, initialized, target, adopted)
    {
      StatusKeeps(Value(), Op.Activate(id, e, initialized, target, adopted));
      if id >= |mappings| {
        return NotFound;
      }
      var current := mappings[id];
      if current.status != Approved && current.status != Paused {
        return NotApproved(current.status);
      }
      var blockers := Blockers(Tables(mappings, locations, versions), id, e, initialized, target);
      if blockers != [] {
        return Blocked(blockers);
      }
      if adopted.Some? {
        return Invalid(adopted.value);
      }
      SameLocations(locations, id);
      var number := BumpVersion(id, Active);
      UpdateRow(id, current.(status := Active, pauseReason := None, activationRecorded := true, version := number));
      reply := Activated;
      assert Transition(Value(), reply) == ActivateStep(old(Value()), id, e, initialized, target, adopted);
    }

    method Pause(id: nat, reason: string) returns (reply: Reply)
      requires Valid()
      modifies this
      ensures Valid()
      ensures Transition(Value(), reply) == PauseStep(old(Value()), id, reason)
    {
      StatusKeeps(Value(), Op.Pause(id, reason));
      if id >= |mappings| {
        return NotFound;
      }
      var current := mappings[id];
      if current.status != Active {
        return NotActive(current.status);
      }
      SameLocations(locations, id);
      var number := BumpVersion(id, Paused);
      UpdateRow(id, current.(status := Paused, pauseReason := Some(reason), version := number));
      reply := PausedNow;
      assert Transition(Value(), reply) == PauseStep(old(Value()), id, reason);
    }
  }

  lemma SameLocations(locations: seq<set<nat>>, id: nat)
    requires id < |locations|
    ensures locations[id := locations[id]] == locations
  {
  }

  /** The unique index on a mapping's version numbers never refuses the next one. */
  lemma NextNumberIsFree(t: Tables, id: nat)
    requires Inv(t) && id < |t.mappings|
    ensures forall i :: 0 <= i < |t.versions| && t.versions[i].mapping == id ==> t.versions[i].number != t.mappings[id].version + 1
  {
    forall i | 0 <= i < |t.versions| && t.versions[i].mapping == id
      ensures t.versions[i].number != t.mappings[id].version + 1
    {
      assert Recounts(t, id);
      var k := PlaceInHistory(t.versions, i, id);
    }
  }

  lemma {:induction false} PlaceInHistory(versions: seq<Version>, i: nat, id: nat) returns (k: nat)
    requires i < |versions| && versions[i].mapping == id
    ensures k < |History(versions, id)| && History(versions, id)[k] == versions[i]
  {
    if i == |versions| - 1 {
      k := |History(versions, id)| - 1;
    } else {
      k := PlaceInHistory(versions[..|versions| - 1], i, id);
    }
  }
}
