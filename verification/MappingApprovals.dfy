/**
  Which item an approval was given for, and when the item a mapping writes is that item.

  A mapping is approved once. Repointing it later never asks for another approval: not while it is
  approved and has never been active, and not once it has been, when it is paused and may be activated
  again as it stands.
 */
module MappingApprovals {
  import opened Stock
  import opened Mappings
  import opened MappingRuns

  // ---------------------------------------------------------------------------------------
  // The one approval
  // ---------------------------------------------------------------------------------------

  ghost predicate IsApproval(h: seq<Version>, j: nat) {
    1 <= j < |h| && h[j - 1].definition.status == Draft && h[j].definition.status == Approved
  }

  lemma {:induction false} NeverDraftAgain(h: seq<Version>, j: nat, k: nat)
    requires Lawful(h) && j <= k < |h| && h[j].definition.status != Draft
    ensures h[k].definition.status != Draft
  {
    if j < k {
      NeverDraftAgain(h, j, k - 1);
      assert Follows(h[k - 1].definition, h[k].definition);
    }
  }

  /** A lawful history has at most one version at which a draft became approved. */
  lemma OneApproval(h: seq<Version>, j: nat, k: nat)
    requires Lawful(h) && IsApproval(h, j) && IsApproval(h, k)
    ensures j == k
  {
    if j < k {
      NeverDraftAgain(h, j, k - 1);
    } else if k < j {
      NeverDraftAgain(h, k, j - 1);
    }
  }

  /** The item the mapping had when it was approved. */
  function ApprovedItem(h: seq<Version>): Option<nat> {
    if |h| < 2 then None
    else
      var n := |h| - 1;
      var before := ApprovedItem(h[..n]);
      if before.Some? then before
      else if h[n - 1].definition.status == Draft && h[n].definition.status == Approved then Some(h[n].definition.item)
      else None
  }

  lemma LawfulPrefix(h: seq<Version>)
    requires Lawful(h) && h != []
    ensures Lawful(h[..|h| - 1])
  {
    var front := h[..|h| - 1];
    forall k | 1 <= k < |front| ensures Follows(front[k - 1].definition, front[k].definition) {
      assert Follows(h[k - 1].definition, h[k].definition);
    }
  }

  /** It is the item of the approval, wherever in the history that is. */
  lemma {:induction false} ApprovedItemIs(h: seq<Version>, j: nat)
    requires Lawful(h) && IsApproval(h, j)
    ensures ApprovedItem(h) == Some(h[j].definition.item)
  {
    var n := |h| - 1;
    LawfulPrefix(h);
    if j < n {
      ApprovedItemIs(h[..n], j);
    } else if ApprovedItem(h[..n]).Some? {
      var k := SomeApproval(h[..n]);
      OneApproval(h, k, j);
    }
  }

  lemma {:induction false} SomeApproval(h: seq<Version>) returns (j: nat)
    requires ApprovedItem(h).Some?
    ensures IsApproval(h, j)
  {
    var n := |h| - 1;
    if ApprovedItem(h[..n]).Some? {
      j := SomeApproval(h[..n]);
    } else {
      j := n;
    }
  }

  // ---------------------------------------------------------------------------------------
  // When a write goes to the item that was approved
  // ---------------------------------------------------------------------------------------

  /** The row's item is the one its approval was given for: what a caller can read beforehand. */
  ghost predicate ItemApproved(t: Tables, id: nat) {
    id < |t.mappings| && ApprovedItem(History(t.versions, id)) == Some(t.mappings[id].item)
  }

  /** In every history that ends active, the item is the approved one if and only if it already was
      just before the last activation. */
  lemma ApprovedAtActivation(h: seq<Version>) returns (approval: nat, activation: nat)
    requires Lawful(h) && h != [] && h[|h| - 1].definition.status == Active
    ensures IsApproval(h, approval) && approval < activation < |h|
    ensures h[activation - 1].definition.status != Active
    ensures forall i :: activation <= i < |h| ==> h[i].definition.status == Active
    ensures ApprovedItem(h) == Some(h[approval].definition.item)
    ensures h[|h| - 1].definition.item == h[approval].definition.item
            <==> h[activation - 1].definition.item == h[approval].definition.item
  {
    activation := ActivatedAt(h, |h| - 1);
    approval := ApprovedEarlier(h, activation - 1);
    ApprovedItemIs(h, approval);
  }

  lemma LaterVersion(h: seq<Version>, v: Version)
    requires ApprovedItem(h).Some?
    ensures ApprovedItem(h + [v]) == ApprovedItem(h)
  {
    assert (h + [v])[..|h|] == h;
  }

  /** A row that is approved, active or paused has been approved for some item. */
  lemma HasApproval(t: Tables, id: nat)
    requires Inv(t) && id < |t.mappings|
    requires var s := t.mappings[id].status; s == Approved || s == Active || s == Paused
    ensures ApprovedItem(History(t.versions, id)).Some?
  {
    var h := History(t.versions, id);
    assert Recounts(t, id);
    var j := ApprovedEarlier(h, |h| - 1);
    ApprovedItemIs(h, j);
  }

  /** An activation that goes through makes the mapping writable for the approved item if and only if
      the row names that item before the call. */
  lemma ActivatesApprovedItemExactly(t: Tables, id: nat, e: Entity, initialized: bool, target: int, adopted: Option<string>)
    requires Inv(t) && ActivateStep(t, id, e, initialized, target, adopted).reply.Activated?
    ensures var t' := ActivateStep(t, id, e, initialized, target, adopted).tables;
            var w := ResolveWriteTarget(t', id, e);
            && w.Writable?
            && (ApprovedItem(History(t'.versions, id)) == Some(w.item) <==> ItemApproved(t, id))
  {
    ActivatedExactly(t, id, e, initialized, target, adopted);
    HasApproval(t, id);
    ApprovedItemStays(t, Activate(id, e, initialized, target, adopted), id);
  }

  /** The revision points the mapping at another item, and is accepted. */
  ghost predicate Repoints(t: Tables, op: Op, id: nat)
    requires WellFormed(t)
  {
    && op.Revise? && op.id == id < |t.mappings|
    && op.revision.item.Set? && op.revision.item.value != t.mappings[id].item
    && ReviseStep(t, id, op.revision, op.active).reply.RevisedAs?
  }

  /** Only a revision touches an item. */
  lemma OthersKeepItems(t: Tables, op: Op, id: nat)
    requires Inv(t) && id < |t.mappings| && !op.Revise?
    ensures id < |StepOf(t, op).tables.mappings|
    ensures StepOf(t, op).tables.mappings[id].item == t.mappings[id].item
  {
  }

  lemma ItemChangesExactly(t: Tables, op: Op, id: nat)
    requires Inv(t) && id < |t.mappings|
    ensures id < |StepOf(t, op).tables.mappings|
    ensures StepOf(t, op).tables.mappings[id].item != t.mappings[id].item <==> Repoints(t, op, id)
  {
    if !op.Revise? {
      OthersKeepItems(t, op, id);
    }
  }

  /** An operation records at most one version. */
  lemma AtMostOneVersion(t: Tables, op: Op)
    requires WellFormed(t)
    ensures var t' := StepOf(t, op).tables;
            t'.versions == t.versions || (|t'.versions| == |t.versions| + 1 && t'.versions == t.versions + [t'.versions[|t.versions|]])
  {
  }

  lemma ApprovedItemStays(t: Tables, op: Op, id: nat)
    requires WellFormed(t) && ApprovedItem(History(t.versions, id)).Some?
    ensures ApprovedItem(History(StepOf(t, op).tables.versions, id)) == ApprovedItem(History(t.versions, id))
  {
    var t' := StepOf(t, op).tables;
    AtMostOneVersion(t, op);
    if t'.versions != t.versions {
      var v := t'.versions[|t.versions|];
      HistoryAppend(t.versions, v, id);
      LaterVersion(History(t.versions, id), v);
      assert History(t.versions, id) + [] == History(t.versions, id);
    }
  }

  /** A mapping whose item is the approved one keeps that through any operation but one that repoints
      it, in whatever status; and repointing always ends it. */
  lemma OnlyRepointingUnapproves(t: Tables, op: Op, id: nat)
    requires Inv(t) && ItemApproved(t, id)
    ensures ItemApproved(StepOf(t, op).tables, id) <==> !Repoints(t, op, id)
  {
    ItemChangesExactly(t, op, id);
    ApprovedItemStays(t, op, id);
  }

  ghost predicate NeverRepointed(t: Tables, ops: seq<Op>, id: nat)
    requires WellFormed(t)
    decreases ops
  {
    ops == [] || (!Repoints(t, ops[0], id) && NeverRepointed(StepOf(t, ops[0]).tables, ops[1..], id))
  }

  /** From its approval on, a mapping that is never repointed writes, whenever it may write, the item
      that was approved. */
  lemma {:induction false} UnrepointedWritesApprovedItem(t: Tables, ops: seq<Op>, id: nat)
    requires Inv(t) && ItemApproved(t, id) && NeverRepointed(t, ops, id)
    ensures ItemApproved(Run(t, ops), id)
    decreases ops
  {
    if ops != [] {
      NextKeeps(t, ops[0]);
      OnlyRepointingUnapproves(t, ops[0], id);
      UnrepointedWritesApprovedItem(StepOf(t, ops[0]).tables, ops[1..], id);
    }
  }

  // ---------------------------------------------------------------------------------------
  // Two ways to go live for an item nobody approved
  // ---------------------------------------------------------------------------------------

  const LISTING := Entity(true, false, None, None)
  const PROPOSE := Propose(Proposal(9, 1, None, None, [5]), {5})
  const REPOINT := Revise(0, Revision(Set(2), Keep, Keep, Keep, true), {5})
  const ACTIVATE := Activate(0, LISTING, true, 0, None)

  function Drawn(item: nat, status: Status): Definition {
    Definition(item, 0, None, {5}, status)
  }

  /** Mapping 0 as the last of `ds` leaves it, with all of them as its versions. */
  function Told(ds: seq<Definition>, pauseReason: Option<string>, approved: bool, activated: bool): Tables
    requires ds != []
  {
    var last := ds[|ds| - 1];
    Tables([Mapping(9, last.item, 0, None, last.status, pauseReason, |ds|, approved, activated, false)], [{5}],
           seq(|ds|, i requires 0 <= i < |ds| => Version(0, i + 1, ds[i])))
  }

  lemma TellsItsOwn(ds: seq<Definition>, pauseReason: Option<string>, approved: bool, activated: bool)
    requires ds != []
    ensures History(Told(ds, pauseReason, approved, activated).versions, 0) == Told(ds, pauseReason, approved, activated).versions
  {
    AllItsOwn(Told(ds, pauseReason, approved, activated).versions);
  }

  lemma {:induction false} AllItsOwn(versions: seq<Version>)
    requires forall i :: 0 <= i < |versions| ==> versions[i].mapping == 0
    ensures History(versions, 0) == versions
  {
    if versions != [] {
      AllItsOwn(versions[..|versions| - 1]);
    }
  }

  lemma Approves() returns (t: Tables)
    ensures Run(EMPTY, [PROPOSE, Approve(0)]) == t == Told([Drawn(1, Draft), Drawn(1, Approved)], None, true, false)
  {
    t := Told([Drawn(1, Draft), Drawn(1, Approved)], None, true, false);
    var t1 := Told([Drawn(1, Draft)], None, false, false);
    assert ToSet([5]) == {5};
    assert StepOf(EMPTY, PROPOSE).tables == t1;
    assert StepOf(t1, Approve(0)).tables == t;
    assert [PROPOSE, Approve(0)][1..] == [Approve(0)];
    assert Run(t1, [Approve(0)]) == t;
  }

  lemma {:induction false} RunAppend(t: Tables, first: seq<Op>, second: seq<Op>)
    requires WellFormed(t)
    ensures Run(t, first + second) == Run(Run(t, first), second)
    decreases first
  {
    if first == [] {
      assert first + second == second;
    } else {
      RunAppend(StepOf(t, first[0]).tables, first[1..], second);
      assert (first + second)[1..] == first[1..] + second;
    }
  }

  /** The mapping may be written to for item 2, and its approval was given for item 1. */
  ghost predicate WritesUnapproved(t: Tables) {
    && WellFormed(t) && Inv(t)
    && ResolveWriteTarget(t, 0, LISTING) == Writable(9, 2, 0, None, {5})
    && ApprovedItem(History(t.versions, 0)) == Some(1)
  }

  lemma TellsUnapproved(ds: seq<Definition>)
    requires |ds| >= 3 && ds[0] == Drawn(1, Draft) && ds[1] == Drawn(1, Approved) && ds[|ds| - 1] == Drawn(2, Active)
    requires Inv(Told(ds, None, true, true))
    ensures WritesUnapproved(Told(ds, None, true, true))
  {
    TellsItsOwn(ds, None, true, true);
    ApprovedItemIs(History(Told(ds, None, true, true).versions, 0), 1) by {
      assert Recounts(Told(ds, None, true, true), 0);
    }
  }

  /** Repointed between its approval and its activation: it stays approved and goes live. */
  lemma RepointedAfterApproval()
    ensures WritesUnapproved(Run(EMPTY, [PROPOSE, Approve(0)] + [REPOINT, ACTIVATE]))
  {
    var t2 := Approves();
    var ds := [Drawn(1, Draft), Drawn(1, Approved), Drawn(2, Approved), Drawn(2, Active)];
    var t3 := Told(ds[..3], None, true, false);
    var t4 := Told(ds, None, true, true);
    assert StepOf(t2, REPOINT).tables == t3;
    assert StepOf(t3, ACTIVATE).tables == t4;
    assert [REPOINT, ACTIVATE][1..] == [ACTIVATE] && Run(t3, [ACTIVATE]) == t4;
    RunAppend(EMPTY, [PROPOSE, Approve(0)], [REPOINT, ACTIVATE]);
    RunKeeps(EMPTY, [PROPOSE, Approve(0)] + [REPOINT, ACTIVATE]);
    TellsUnapproved(ds);
  }

  /** Repointed while active: it is paused, and activated again without another approval. */
  lemma RepointedWhileActive()
    ensures WritesUnapproved(Run(EMPTY, [PROPOSE, Approve(0)] + [ACTIVATE, REPOINT, ACTIVATE]))
  {
    var t2 := Approves();
    var ds := [Drawn(1, Draft), Drawn(1, Approved), Drawn(1, Active), Drawn(2, Paused), Drawn(2, Active)];
    var t3 := Told(ds[..3], None, true, true);
    var t4 := Told(ds[..4], Some(REPOINTED), true, true);
    var t5 := Told(ds, None, true, true);
    assert StepOf(t2, ACTIVATE).tables == t3;
    assert StepOf(t3, REPOINT).tables == t4;
    assert StepOf(t4, ACTIVATE).tables == t5;
    var ops := [ACTIVATE, REPOINT, ACTIVATE];
    assert ops[2..][1..] == [] && ops[1..][1..] == ops[2..];
    assert Run(t4, ops[2..]) == t5;
    assert Run(t3, ops[1..]) == t5;
    RunAppend(EMPTY, [PROPOSE, Approve(0)], ops);
    RunKeeps(EMPTY, [PROPOSE, Approve(0)] + ops);
    TellsUnapproved(ds);
  }
}
