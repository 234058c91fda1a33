/**
  What each mapping operation does, field by field: what a revision takes over and what it leaves,
  which status follows, and exactly when it is refused.
 */
module MappingEffects {
  import opened Stock
  import opened Mappings
  import opened MappingRuns

  /** One mapping's row and locations have changed, and the change is on record as its next version;
      every other mapping, its locations and all earlier versions are as they were. */
  ghost predicate Rewritten(t: Tables, t': Tables, id: nat, m: Mapping, locations: set<nat>)
    requires WellFormed(t) && id < |t.mappings|
  {
    && t'.mappings == t.mappings[id := m]
    && t'.locations == t.locations[id := locations]
    && t'.versions == t.versions + [Version(id, m.version, Definition(m.item, m.buffer, m.cap, locations, m.status))]
    && m.version == t.mappings[id].version + 1
  }

  /** Some mapping of the entity is not archived. */
  ghost predicate IsMapped(t: Tables, entity: nat) {
    exists i :: 0 <= i < |t.mappings| && t.mappings[i].entity == entity && t.mappings[i].status != Archived
  }

  ghost predicate BadRules(buffer: Option<int>, cap: Option<int>) {
    (buffer.Some? && buffer.value < 0) || (cap.Some? && cap.value < 0)
  }

  /** A proposal becomes a draft with the rules asked for (no buffer unless one is given), drawing on the
      locations named, as its first version; exactly when its figures are not negative, its locations are
      some and all active, and its entity is not mapped yet. */
  lemma ProposedExactly(t: Tables, p: Proposal, active: set<nat>)
    requires Inv(t)
    ensures var u := ProposeStep(t, p, active);
            var bad := BadRules(p.buffer, p.cap) || p.locations == [] || exists l :: l in p.locations && l !in active;
            && (u.reply.Invalid? <==> bad)
            && (u.reply.AlreadyMapped? <==> !bad && IsMapped(t, p.entity))
            && (u.reply.Proposed? <==> !bad && !IsMapped(t, p.entity))
            && (!u.reply.Proposed? ==> u.tables == t)
            && (u.reply.Proposed? ==>
                  var buffer := if p.buffer.Some? then p.buffer.value else 0;
                  var locations := set l | l in p.locations;
                  && u.reply.id == |t.mappings|
                  && u.tables == Tables(
                       t.mappings + [Mapping(p.entity, p.item, buffer, p.cap, Draft, None, 1, false, false, false)],
                       t.locations + [locations],
                       t.versions + [Version(|t.mappings|, 1, Definition(p.item, buffer, p.cap, locations, Draft))]))
  {
    assert (exists l :: l in p.locations && l !in active) <==> !(ToSet(p.locations) <= active);
  }

  /** A draft, and nothing else, becomes approved; only that changes. */
  lemma ApprovedExactly(t: Tables, id: nat)
    requires Inv(t)
    ensures var u := ApproveStep(t, id);
            && (u.reply.ApprovedAs? <==> id < |t.mappings| && t.mappings[id].status == Draft)
            && (!u.reply.ApprovedAs? ==> u.tables == t)
            && (u.reply.ApprovedAs? ==>
                  var m := t.mappings[id];
                  && u.reply == ApprovedAs(m.version + 1)
                  && Rewritten(t, u.tables, id, m.(status := Approved, approvalRecorded := true, version := m.version + 1), t.locations[id]))
  {
  }

  /** A mapping that is not retired yet is retired, in whatever status; only that changes. */
  lemma ArchivedExactly(t: Tables, id: nat)
    requires Inv(t)
    ensures var u := ArchiveStep(t, id);
            && (u.reply.ArchivedAs? <==> id < |t.mappings| && t.mappings[id].status != Archived)
            && (!u.reply.ArchivedAs? ==> u == Transition(t, NotFound))
            && (u.reply.ArchivedAs? ==>
                  var m := t.mappings[id];
                  && u.reply == ArchivedAs(m.version + 1)
                  && Rewritten(t, u.tables, id,
                               m.(status := Archived, pauseReason := None, archivalRecorded := true, version := m.version + 1),
                               t.locations[id]))
  {
  }

  /** An active mapping, and nothing else, is paused with the reason given; only that changes, and from
      then on it is not writable. */
  lemma PausedExactly(t: Tables, id: nat, reason: string, e: Entity)
    requires Inv(t)
    ensures var u := PauseStep(t, id, reason);
            && (u.reply == PausedNow <==> id < |t.mappings| && t.mappings[id].status == Active)
            && (u.reply != PausedNow ==> u.tables == t)
            && (u.reply == PausedNow ==>
                  var m := t.mappings[id];
                  && Rewritten(t, u.tables, id, m.(status := Paused, pauseReason := Some(reason), version := m.version + 1), t.locations[id])
                  && ResolveWriteTarget(u.tables, id, e) == Inactive(Paused, Some(reason)))
  {
  }

  /** Each reason against going live, and when it stands. */
  ghost predicate Stands(t: Tables, id: nat, e: Entity, initialized: bool, target: int, b: Blocker)
    requires WellFormed(t) && id < |t.mappings|
  {
    match b
    case Ineligible => !e.eligible
    case Missing => e.missing
    case Unmapped => e.siblings.Some? && exists s :: s in e.siblings.value && !IsMapped(t, s)
    case Disagree => !initialized && e.quantity.Some? && e.quantity.value != target
    case NoLocation => t.locations[id] == {}
  }

  lemma BlockersAre(t: Tables, id: nat, e: Entity, initialized: bool, target: int, b: Blocker)
    requires WellFormed(t) && id < |t.mappings|
    ensures b in Blockers(t, id, e, initialized, target) <==> Stands(t, id, e, initialized, target, b)
  {
    if e.siblings.Some? {
      forall s | s in e.siblings.value ensures LiveFor(t.mappings, s).Some? <==> IsMapped(t, s) {
      }
    }
  }

  /** An approved or paused mapping goes live unless a reason stands against it, which is then in the
      answer with every other that does, or its starting quantity could not be recorded; only its status
      changes. */
  lemma ActivatedEffect(t: Tables, id: nat, e: Entity, initialized: bool, target: int, adopted: Option<string>)
    requires Inv(t)
    ensures var u := ActivateStep(t, id, e, initialized, target, adopted);
            if id >= |t.mappings| then u == Transition(t, NotFound)
            else if t.mappings[id].status != Approved && t.mappings[id].status != Paused then
              u == Transition(t, NotApproved(t.mappings[id].status))
            else if exists b :: Stands(t, id, e, initialized, target, b) then
              && u.tables == t && u.reply.Blocked?
              && forall b :: b in u.reply.blockers <==> Stands(t, id, e, initialized, target, b)
            else if adopted.Some? then u == Transition(t, Invalid(adopted.value))
            else
              var m := t.mappings[id];
              && u.reply == Activated
              && Rewritten(t, u.tables, id,
                           m.(status := Active, pauseReason := None, activationRecorded := true, version := m.version + 1), t.locations[id])
  {
    if id < |t.mappings| {
      forall b ensures b in Blockers(t, id, e, initialized, target) <==> Stands(t, id, e, initialized, target, b) {
        BlockersAre(t, id, e, initialized, target, b);
      }
      var bs := Blockers(t, id, e, initialized, target);
      if bs != [] {
        assert Stands(t, id, e, initialized, target, bs[0]);
      }
    }
  }

  /** A mapping may be written to exactly while it is active and its entity eligible and present, and
      then with its own row; otherwise the answer is the first reason against it. */
  lemma WriteTargetExactly(t: Tables, id: nat, e: Entity)
    requires WellFormed(t)
    ensures var w := ResolveWriteTarget(t, id, e);
            if id >= |t.mappings| then w == NoMapping
            else
              var m := t.mappings[id];
              && (w == Writable(m.entity, m.item, m.buffer, m.cap, t.locations[id]) <==> m.status == Active && e.eligible && !e.missing)
              && (w.Inactive? <==> m.status != Active)
              && (w.Inactive? ==> w.status == m.status && w.reason == m.pauseReason)
              && (w == IneligibleEntity <==> m.status == Active && !e.eligible)
              && (w == MissingEntity <==> m.status == Active && e.eligible && e.missing)
  {
  }

  // ---------------------------------------------------------------------------------------
  // Revising
  // ---------------------------------------------------------------------------------------

  /** A revised field has the value given, or keeps the one it had. */
  ghost predicate Takes<T>(f: Field<T>, before: T, after: T) {
    match f
    case Set(value) => after == value
    case Keep => after == before
  }

  /** What cannot be accepted whatever the mapping: negative figures, no reason, or no location. */
  ghost predicate BadRevision(r: Revision) {
    || (r.buffer.Set? && r.buffer.value < 0)
    || (r.cap.Set? && r.cap.value.Some? && r.cap.value.value < 0)
    || !r.explained
    || (r.locations.Set? && r.locations.value == [])
  }

  ghost predicate InactiveLocation(r: Revision, active: set<nat>) {
    r.locations.Set? && exists l :: l in r.locations.value && l !in active
  }

  /** The row a revision leaves: item, buffer and cap as given or as they were; pointing a mapping that
      has started at another item pauses it. */
  ghost predicate RevisedRow(m: Mapping, r: Revision, m': Mapping) {
    && Takes(r.item, m.item, m'.item) && Takes(r.buffer, m.buffer, m'.buffer) && Takes(r.cap, m.cap, m'.cap)
    && m'.version == m.version + 1 && m'.entity == m.entity
    && m'.approvalRecorded == m.approvalRecorded && m'.activationRecorded == m.activationRecorded
    && m'.archivalRecorded == m.archivalRecorded
    && if m'.item != m.item && (m.status == Active || m.status == Paused)
       then m'.status == Paused && m'.pauseReason == Some(REPOINTED)
       else m'.status == m.status && m'.pauseReason == m.pauseReason
  }

  /** A revision is accepted exactly when it has a reason, its figures are not negative, its locations
      are some and all active, and the mapping is there and not retired. Then every field it names has
      the value given and every other the one it had, in the row and in the version recorded. */
  lemma RevisedExactly(t: Tables, id: nat, r: Revision, active: set<nat>)
    requires Inv(t)
    ensures var u := ReviseStep(t, id, r, active);
            var gone := id >= |t.mappings| || t.mappings[id].status == Archived;
            && (u.reply == NotFound <==> !BadRevision(r) && gone)
            && (u.reply.Invalid? <==> BadRevision(r) || (!gone && InactiveLocation(r, active)))
            && (u.reply.RevisedAs? <==> !BadRevision(r) && !gone && !InactiveLocation(r, active))
            && (!u.reply.RevisedAs? ==> u.tables == t)
            && (u.reply.RevisedAs? ==>
                  && |u.tables.mappings| == |t.mappings|
                  && (var m' := u.tables.mappings[id];
                      && RevisedRow(t.mappings[id], r, m')
                      && u.reply == RevisedAs(m'.version, m'.status)
                      && Rewritten(t, u.tables, id, m', if r.locations.Set? then set l | l in r.locations.value else t.locations[id])))
  {
    if r.locations.Set? {
      assert (exists l :: l in r.locations.value && l !in active) <==> !(ToSet(r.locations.value) <= active);
      assert ToSet(r.locations.value) == set l | l in r.locations.value;
    }
    assert id < |t.mappings| ==> Checked(t.mappings[id]);
  }

  /** A live mapping whose rules are revised, and not its item, is written with the new rules at once. */
  lemma RevisedIsWritten(t: Tables, id: nat, r: Revision, active: set<nat>, e: Entity)
    requires Inv(t) && ReviseStep(t, id, r, active).reply.RevisedAs?
    requires id < |t.mappings| && t.mappings[id].status == Active && e.eligible && !e.missing
    requires Takes(r.item, t.mappings[id].item, t.mappings[id].item)
    ensures var m := t.mappings[id];
            var w := ResolveWriteTarget(ReviseStep(t, id, r, active).tables, id, e);
            && w.Writable? && w.entity == m.entity && w.item == m.item
            && Takes(r.buffer, m.buffer, w.buffer) && Takes(r.cap, m.cap, w.cap)
            && w.locations == if r.locations.Set? then set l | l in r.locations.value else t.locations[id]
  {
    RevisedExactly(t, id, r, active);
  }
}
