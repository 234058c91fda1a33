/**
  What every run of mapping operations keeps: the versions of a mapping are its whole history, and
  the history says what a provider write may rely on.
 */
module MappingRuns {
  import opened Stock
  import opened Mappings

  datatype Op =
    | Propose(proposal: Proposal, active: set<nat>)
    | Approve(id: nat)
    | Revise(id: nat, revision: Revision, active: set<nat>)
    | Archive(id: nat)
    | Activate(id: nat, entity: Entity, initialized: bool, target: int, adopted: Option<string>)
    | Pause(id: nat, reason: string)

  function StepOf(t: Tables, op: Op): Transition
    requires WellFormed(t)
  {
    match op
    case Propose(p, active) => ProposeStep(t, p, active)
    case Approve(id) => ApproveStep(t, id)
    case Revise(id, r, active) => ReviseStep(t, id, r, active)
    case Archive(id) => ArchiveStep(t, id)
    case Activate(id, e, initialized, target, adopted) => ActivateStep(t, id, e, initialized, target, adopted)
    case Pause(id, reason) => PauseStep(t, id, reason)
  }

  // ---------------------------------------------------------------------------------------
  // Histories
  // ---------------------------------------------------------------------------------------

  /** The versions of one mapping, oldest first. */
  function History(versions: seq<Version>, id: nat): seq<Version> {
    if versions == [] then []
    else
      var n := |versions| - 1;
      History(versions[..n], id) + if versions[n].mapping == id then [versions[n]] else []
  }

  lemma HistoryAppend(versions: seq<Version>, v: Version, id: nat)
    ensures History(versions + [v], id) == History(versions, id) + if v.mapping == id then [v] else []
  {
    assert (versions + [v])[..|versions|] == versions;
  }

  lemma {:induction false} NoHistory(versions: seq<Version>, id: nat)
    requires forall i :: 0 <= i < |versions| ==> versions[i].mapping != id
    ensures History(versions, id) == []
  {
    if versions != [] {
      NoHistory(versions[..|versions| - 1], id);
    }
  }

  /** How one version may follow another. */
  ghost predicate Follows(a: Definition, b: Definition) {
    var same := b == a.(status := b.status);
    match b.status
    case Draft => a.status == Draft
    case Approved => (a.status == Draft && same) || a.status == Approved
    case Active => (a.status == Active && a.item == b.item) || ((a.status == Approved || a.status == Paused) && same)
    case Paused => (a.status == Active && (same || a.item != b.item)) || a.status == Paused
    case Archived => a.status != Archived && same
  }

  ghost predicate Lawful(h: seq<Version>) {
    && (forall k :: 0 <= k < |h| ==> h[k].number == k + 1)
    && (h != [] ==> h[0].definition.status == Draft)
    && (forall k :: 1 <= k < |h| ==> Follows(h[k - 1].definition, h[k].definition))
  }

  /** The row says what the last version says. */
  ghost predicate Recounts(t: Tables, id: nat)
    requires WellFormed(t) && id < |t.mappings|
  {
    var h := History(t.versions, id);
    && Lawful(h)
    && |h| == t.mappings[id].version >= 1
    && h[|h| - 1].definition == DefinitionOf(t.mappings[id], t.locations[id])
  }

  ghost predicate Inv(t: Tables) {
    && WellFormed(t)
    && (forall id :: 0 <= id < |t.mappings| ==> Checked(t.mappings[id]) && t.locations[id] != {} && Recounts(t, id))
    && (forall i :: 0 <= i < |t.versions| ==> t.versions[i].mapping < |t.mappings|)
    && OneLivePerEntity(t.mappings)
  }

  const EMPTY := Tables([], [], [])

  // ---------------------------------------------------------------------------------------
  // Every step keeps the invariant
  // ---------------------------------------------------------------------------------------

  /** Writing the next version of one mapping. */
  lemma RecordedKeeps(t: Tables, id: nat, m: Mapping, locations: set<nat>)
    requires Inv(t) && id < |t.mappings|
    requires Checked(m) && locations != {}
    requires m.version == t.mappings[id].version + 1 && m.entity == t.mappings[id].entity
    requires Live(t.mappings[id])
    requires Follows(DefinitionOf(t.mappings[id], t.locations[id]), DefinitionOf(m, locations))
    ensures Inv(Recorded(t, id, m, locations))
  {
    var t' := Recorded(t, id, m, locations);
    var v := Version(id, m.version, DefinitionOf(m, locations));
    forall k | 0 <= k < |t'.mappings|
      ensures Checked(t'.mappings[k]) && t'.locations[k] != {} && Recounts(t', k)
    {
      assert Recounts(t, k);
      HistoryAppend(t.versions, v, k);
    }
  }

  lemma ProposeKeeps(t: Tables, p: Proposal, active: set<nat>)
    requires Inv(t)
    ensures Inv(ProposeStep(t, p, active).tables)
  {
    var u := ProposeStep(t, p, active);
    if u.reply.Proposed? {
      assert p.locations[0] in ToSet(p.locations);
      var v := Version(|t.mappings|, 1, DefinitionOf(Drafted(p), ToSet(p.locations)));
      NoHistory(t.versions, |t.mappings|);
      forall k | 0 <= k < |u.tables.mappings|
        ensures Checked(u.tables.mappings[k]) && u.tables.locations[k] != {} && Recounts(u.tables, k)
      {
        HistoryAppend(t.versions, v, k);
        assert k < |t.mappings| ==> Recounts(t, k);
      }
    }
  }

  lemma ReviseKeeps(t: Tables, id: nat, r: Revision, active: set<nat>)
    requires Inv(t)
    ensures Inv(ReviseStep(t, id, r, active).tables)
  {
    if ReviseStep(t, id, r, active).reply.RevisedAs? {
      var locations := if r.locations.Set? then ToSet(r.locations.value) else t.locations[id];
      if r.locations.Set? {
        assert r.locations.value[0] in locations;
      }
      RecordedKeeps(t, id, Revised(t.mappings[id], r), locations);
    }
  }

  lemma StatusKeeps(t: Tables, op: Op)
    requires Inv(t) && !op.Propose? && !op.Revise?
    ensures Inv(StepOf(t, op).tables)
  {
    var t' := StepOf(t, op).tables;
    if t' != t {
      RecordedKeeps(t, op.id, t'.mappings[op.id], t.locations[op.id]);
    }
  }

  lemma NextKeeps(t: Tables, op: Op)
    requires Inv(t)
    ensures Inv(StepOf(t, op).tables)
  {
    match op
    case Propose(p, active) => ProposeKeeps(t, p, active);
    case Revise(id, r, active) => ReviseKeeps(t, id, r, active);
    case _ => StatusKeeps(t, op);
  }

  // ---------------------------------------------------------------------------------------
  // Runs
  // ---------------------------------------------------------------------------------------

  function Run(t: Tables, ops: seq<Op>): (r: Tables)
    requires WellFormed(t)
    ensures WellFormed(r)
    decreases ops
  {
    if ops == [] then t else Run(StepOf(t, ops[0]).tables, ops[1..])
  }

  lemma {:induction false} RunKeeps(t: Tables, ops: seq<Op>)
    requires Inv(t)
    ensures Inv(Run(t, ops))
    decreases ops
  {
    if ops != [] {
      NextKeeps(t, ops[0]);
      RunKeeps(StepOf(t, ops[0]).tables, ops[1..]);
    }
  }

  /** Versions are never rewritten: a later history starts with the earlier one. */
  lemma {:induction false} HistoryOnlyGrows(t: Tables, ops: seq<Op>)
    requires Inv(t)
    ensures |t.versions| <= |Run(t, ops).versions| && Run(t, ops).versions[..|t.versions|] == t.versions
    decreases ops
  {
    if ops != [] {
      var t1 := StepOf(t, ops[0]).tables;
      NextKeeps(t, ops[0]);
      HistoryOnlyGrows(t1, ops[1..]);
      assert t1.versions[..|t.versions|] == t.versions;
    }
  }

  /** After every run the versions of a mapping are numbered from 1 without gaps, the row equals the
      last of them, the CHECK constraints hold, and no entity has two live mappings. */
  lemma MappingHistory(ops: seq<Op>)
    ensures var t := Run(EMPTY, ops);
            && OneLivePerEntity(t.mappings)
            && forall id :: 0 <= id < |t.mappings| ==> Checked(t.mappings[id]) && Recounts(t, id)
  {
    RunKeeps(EMPTY, ops);
  }

  // ---------------------------------------------------------------------------------------
  // What a history says
  // ---------------------------------------------------------------------------------------

  /** A mapping that is approved, active or paused was approved at some version. */
  lemma {:induction false} ApprovedEarlier(h: seq<Version>, k: nat) returns (j: nat)
    requires Lawful(h) && k < |h|
    requires var s := h[k].definition.status; s == Approved || s == Active || s == Paused
    ensures 1 <= j <= k && h[j].definition.status == Approved && h[j - 1].definition == h[j].definition.(status := Draft)
  {
    assert Follows(h[k - 1].definition, h[k].definition);
    if h[k - 1].definition.status == Draft {
      j := k;
    } else {
      j := ApprovedEarlier(h, k - 1);
    }
  }

  /** Where the current stretch of active versions began: an activation of exactly what was there,
      for the item it still has. */
  lemma {:induction false} ActivatedAt(h: seq<Version>, k: nat) returns (j: nat)
    requires Lawful(h) && k < |h| && h[k].definition.status == Active
    ensures 1 <= j <= k
    ensures h[j - 1].definition.status == Approved || h[j - 1].definition.status == Paused
    ensures h[j].definition == h[j - 1].definition.(status := Active)
    ensures forall i :: j <= i <= k ==> h[i].definition.status == Active && h[i].definition.item == h[k].definition.item
  {
    assert Follows(h[k - 1].definition, h[k].definition);
    if h[k - 1].definition.status == Active {
      j := ActivatedAt(h, k - 1);
    } else {
      j := k;
    }
  }

  /** Two active versions that point at different items have a fresh activation between them. */
  lemma RepointingNeedsActivation(h: seq<Version>, i: nat, k: nat) returns (j: nat)
    requires Lawful(h) && i < k < |h|
    requires h[i].definition.status == Active == h[k].definition.status && h[i].definition.item != h[k].definition.item
    ensures i + 1 < j <= k
    ensures h[j - 1].definition.status == Paused && h[j].definition == h[j - 1].definition.(status := Active)
    ensures h[j].definition.item == h[k].definition.item
  {
    j := ActivatedAt(h, k);
    if h[j - 1].definition.status == Approved {
      NotApprovedAgain(h, i, j - 1);
    }
  }

  /** Once active, a mapping is never merely approved again. */
  lemma {:induction false} NotApprovedAgain(h: seq<Version>, i: nat, k: nat)
    requires Lawful(h) && i <= k < |h| && h[i].definition.status == Active
    ensures h[k].definition.status != Approved && h[k].definition.status != Draft
  {
    if i < k {
      NotApprovedAgain(h, i, k - 1);
      assert Follows(h[k - 1].definition, h[k].definition);
    }
  }

  /** In every run, a mapping that may be written to has an entity that is eligible and present, was
      approved at an earlier version, was activated for the very item the write will use, has been
      active for it ever since, and is the only live mapping of its entity. */
  lemma WritableMeans(ops: seq<Op>, id: nat, e: Entity) returns (approval: nat, activation: nat)
    requires ResolveWriteTarget(Run(EMPTY, ops), id, e).Writable?
    ensures var t := Run(EMPTY, ops);
            var h := History(t.versions, id);
            var w := ResolveWriteTarget(t, id, e);
            && e.eligible && !e.missing
            && 1 <= approval < activation < |h|
            && h[approval].definition.status == Approved && h[approval - 1].definition.status == Draft
            && h[activation - 1].definition.status != Active
            && h[activation].definition == h[activation - 1].definition.(status := Active)
            && h[|h| - 1].definition == Definition(w.item, w.buffer, w.cap, w.locations, Active)
            && (forall i :: activation <= i < |h| ==> h[i].definition.status == Active && h[i].definition.item == w.item)
            && (forall k :: 0 <= k < |t.mappings| && Live(t.mappings[k]) && t.mappings[k].entity == w.entity ==> k == id)
  {
    RunKeeps(EMPTY, ops);
    var t := Run(EMPTY, ops);
    var h := History(t.versions, id);
    assert Recounts(t, id);
    activation := ActivatedAt(h, |h| - 1);
    approval := ApprovedEarlier(h, activation - 1);
  }

  /** An approved or paused mapping goes live exactly when its entity is eligible and present, every
      sellable variation of its listing has a live mapping, nobody is left to guess which of two
      different quantities is right, and the starting quantity could be recorded. */
  lemma ActivatedExactly(t: Tables, id: nat, e: Entity, initialized: bool, target: int, adopted: Option<string>)
    requires Inv(t)
    ensures var u := ActivateStep(t, id, e, initialized, target, adopted);
            && (u.reply.Activated? <==>
                  && id < |t.mappings| && (t.mappings[id].status == Approved || t.mappings[id].status == Paused)
                  && e.eligible && !e.missing
                  && (e.siblings.Some? ==> forall s :: s in e.siblings.value ==> HasLive(t.mappings, s))
                  && (initialized || e.quantity.None? || e.quantity.value == target)
                  && adopted.None?)
            && (!u.reply.Activated? ==> u.tables == t)
            && (u.reply.Activated? ==>
                  var m := t.mappings[id];
                  ResolveWriteTarget(u.tables, id, e) == Writable(m.entity, m.item, m.buffer, m.cap, t.locations[id]))
  {
    if e.siblings.Some? {
      forall s | s in e.siblings.value ensures LiveFor(t.mappings, s).Some? <==> HasLive(t.mappings, s) {
      }
    }
  }

  ghost predicate HasLive(ms: seq<Mapping>, entity: nat) {
    exists i :: 0 <= i < |ms| && Live(ms[i]) && ms[i].entity == entity
  }
}
