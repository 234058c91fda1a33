/**
  The dry run of a change (packages/inventory/src/projection.ts): what every channel of an ordinary
  item advertises now, and what it would advertise after a hypothetical movement; compared with what
  it does advertise once the movement has been posted to the ledger.
 */
module Projection {
  import opened Stock
  import opened Ledger
  import opened Availability
  import Reservations

  datatype Hypothetical = Hypothetical(location: nat, delta: int)

  datatype LocationProjection = LocationProjection(
    location: nat, onHand: int, reserved: int, safetyStock: nat, projectedOnHand: int)

  datatype MappingRow = MappingRow(id: nat, archived: bool, rules: Rules)

  datatype ChannelProjection = ChannelProjection(mapping: nat, currentTarget: nat, projectedTarget: nat)

  /** What a read of one item sees: the undeleted locations in display order, and the safety stock
      settings. */
  datatype Reading = Reading(item: nat, listed: seq<nat>, safety: Reservations.SafetyLevels)

  /** All hypothetical changes at one location together. */
  function DeltaAt(changes: seq<Hypothetical>, l: nat): int {
    if changes == [] then 0
    else
      var n := |changes| - 1;
      DeltaAt(changes[..n], l) + if changes[n].location == l then changes[n].delta else 0
  }

  function Project(b: Balances, r: Reading, changes: seq<Hypothetical>, l: nat): LocationProjection {
    var k := Key(r.item, l);
    var row := At(b, k);
    LocationProjection(l, row.onHand, row.reserved, Reservations.SafetyStock(r.safety, k),
                       Max(0, row.onHand + DeltaAt(changes, l)))
  }

  /** One projection per location that has a balance row. */
  function Projections(b: Balances, r: Reading, changes: seq<Hypothetical>, listed: seq<nat>): seq<LocationProjection> {
    if listed == [] then []
    else
      var n := |listed| - 1;
      Projections(b, r, changes, listed[..n])
      + if Key(r.item, listed[n]) in b then [Project(b, r, changes, listed[n])] else []
  }

  function Chosen(ps: seq<LocationProjection>, selected: seq<nat>): seq<LocationProjection> {
    if ps == [] then []
    else
      var n := |ps| - 1;
      Chosen(ps[..n], selected) + if ps[n].location in selected then [ps[n]] else []
  }

  /** Rows meet the table's constraints, so the figures are not negative. */
  function AsBalance(p: LocationProjection, projected: bool): LocationBalance {
    LocationBalance(p.location, Max(0, if projected then p.projectedOnHand else p.onHand), Max(0, p.reserved), p.safetyStock)
  }

  function AsBalances(ps: seq<LocationProjection>, projected: bool): (bs: seq<LocationBalance>)
    ensures |bs| == |ps| && forall i :: 0 <= i < |ps| ==> bs[i] == AsBalance(ps[i], projected)
  {
    seq(|ps|, i requires 0 <= i < |ps| => AsBalance(ps[i], projected))
  }

  /** What an item has to sell at the selected locations, now or after the changes. */
  function AvailableAt(b: Balances, r: Reading, changes: seq<Hypothetical>, selected: seq<nat>, projected: bool): nat {
    SumAvailable(AsBalances(Chosen(Projections(b, r, changes, r.listed), selected), projected))
  }

  function Target(b: Balances, r: Reading, changes: seq<Hypothetical>, selected: seq<nat>, rules: Rules, projected: bool): nat {
    ChannelTarget(AvailableAt(b, r, changes, selected, projected), rules)
  }

  function SelectedBy(selections: seq<(nat, nat)>, mapping: nat): seq<nat> {
    if selections == [] then []
    else
      var n := |selections| - 1;
      SelectedBy(selections[..n], mapping) + if selections[n].0 == mapping then [selections[n].1] else []
  }

  function ChannelsOf(b: Balances, r: Reading, changes: seq<Hypothetical>, ms: seq<MappingRow>, selections: seq<(nat, nat)>): seq<ChannelProjection> {
    if ms == [] then []
    else
      var n := |ms| - 1;
      var m := ms[n];
      var selected := SelectedBy(selections, m.id);
      ChannelsOf(b, r, changes, ms[..n], selections)
      + if m.archived then []
        else [ChannelProjection(m.id, Target(b, r, changes, selected, m.rules, false),
                                Target(b, r, changes, selected, m.rules, true))]
  }

  // ---------------------------------------------------------------------------------------
  // The projection, step by step
  // ---------------------------------------------------------------------------------------

  method SumChanges(changes: seq<Hypothetical>) returns (deltas: map<nat, int>)
    ensures forall l :: (if l in deltas then deltas[l] else 0) == DeltaAt(changes, l)
  {
    deltas := map[];
    for i := 0 to |changes|
      invariant forall l :: (if l in deltas then deltas[l] else 0) == DeltaAt(changes[..i], l)
    {
      var change := changes[i];
      assert changes[..i + 1][..i] == changes[..i];
      var soFar := if change.location in deltas then deltas[change.location] else 0;
      deltas := deltas[change.location := soFar + change.delta];
    }
    assert changes[..|changes|] == changes;
  }

  function Group(selected: map<nat, seq<nat>>, mapping: nat): seq<nat> {
    if mapping in selected then selected[mapping] else []
  }

  /** Every mapping is given its own locations, in the order read. */
  ghost predicate Grouped(selected: map<nat, seq<nat>>, selections: seq<(nat, nat)>) {
    forall m :: Group(selected, m) == SelectedBy(selections, m)
  }

  lemma SelectedByStep(selections: seq<(nat, nat)>, i: nat, m: nat)
    requires i < |selections|
    ensures SelectedBy(selections[..i + 1], m)
         == SelectedBy(selections[..i], m) + if selections[i].0 == m then [selections[i].1] else []
  {
    assert selections[..i + 1][..i] == selections[..i];
  }

  lemma GroupedStep(selected: map<nat, seq<nat>>, selections: seq<(nat, nat)>, i: nat)
    requires i < |selections| && Grouped(selected, selections[..i])
    ensures Grouped(selected[selections[i].0 := Group(selected, selections[i].0) + [selections[i].1]], selections[..i + 1])
  {
    var row := selections[i];
    var after := selected[row.0 := Group(selected, row.0) + [row.1]];
    forall m ensures Group(after, m) == SelectedBy(selections[..i + 1], m) {
      SelectedByStep(selections, i, m);
      assert Group(selected, m) == SelectedBy(selections[..i], m);
    }
  }

  method ReadSelectedLocations(selections: seq<(nat, nat)>) returns (selected: map<nat, seq<nat>>)
    ensures Grouped(selected, selections)
  {
    selected := map[];
    for i := 0 to |selections|
      invariant Grouped(selected, selections[..i])
    {
      var row := selections[i];
      GroupedStep(selected, selections, i);
      selected := selected[row.0 := Group(selected, row.0) + [row.1]];
    }
    assert selections[..|selections|] == selections;
  }

  method ProjectLocations(b: Balances, r: Reading, deltas: map<nat, int>, ghost changes: seq<Hypothetical>)
    returns (ps: seq<LocationProjection>)
    requires forall l :: (if l in deltas then deltas[l] else 0) == DeltaAt(changes, l)
    ensures ps == Projections(b, r, changes, r.listed)
  {
    ps := [];
    for i := 0 to |r.listed|
      invariant ps == Projections(b, r, changes, r.listed[..i])
    {
      var l := r.listed[i];
      assert r.listed[..i + 1][..i] == r.listed[..i];
      if Key(r.item, l) in b {
        var row := b[Key(r.item, l)];
        var delta := if l in deltas then deltas[l] else 0;
        ps := ps + [LocationProjection(l, row.onHand, row.reserved, Reservations.SafetyStock(r.safety, Key(r.item, l)),
                                       Max(0, row.onHand + delta))];
      }
    }
    assert r.listed[..|r.listed|] == r.listed;
  }

  /** What every live mapping of the item advertises and would advertise. The sum over locations
      never meets a location twice, so it never fails. */
  method ProjectItem(b: Balances, r: Reading, changes: seq<Hypothetical>, ms: seq<MappingRow>, selections: seq<(nat, nat)>)
    returns (channels: seq<ChannelProjection>)
    requires Distinct(r.listed)
    ensures channels == ChannelsOf(b, r, changes, ms, selections)
  {
    var deltas := SumChanges(changes);
    var projections := ProjectLocations(b, r, deltas, changes);
    var selectedByMapping := ReadSelectedLocations(selections);
    channels := [];
    for i := 0 to |ms|
      invariant channels == ChannelsOf(b, r, changes, ms[..i], selections)
    {
      var m := ms[i];
      assert ms[..i + 1][..i] == ms[..i];
      if !m.archived {
        var selected := Group(selectedByMapping, m.id);
        var chosen := Chosen(projections, selected);
        ChosenDistinct(b, r, changes, selected);
        var now := AvailableToSellAcrossLocations(AsBalances(chosen, false));
        var later := AvailableToSellAcrossLocations(AsBalances(chosen, true));
        channels := channels + [ChannelProjection(m.id, ChannelTarget(now.value, m.rules), ChannelTarget(later.value, m.rules))];
      }
    }
    assert ms[..|ms|] == ms;
  }

  // ---------------------------------------------------------------------------------------
  // Sums over the listed locations
  // ---------------------------------------------------------------------------------------

  lemma {:induction false} ProjectionsAreListed(b: Balances, r: Reading, changes: seq<Hypothetical>, listed: seq<nat>)
    requires Distinct(listed)
    ensures forall i :: 0 <= i < |Projections(b, r, changes, listed)| ==> Projections(b, r, changes, listed)[i].location in listed
    ensures forall i, j :: 0 <= i < j < |Projections(b, r, changes, listed)| ==>
              Projections(b, r, changes, listed)[i].location != Projections(b, r, changes, listed)[j].location
  {
    if listed != [] {
      var n := |listed| - 1;
      ProjectionsAreListed(b, r, changes, listed[..n]);
      assert listed[n] !in listed[..n];
    }
  }

  lemma {:induction false} ChosenAreThere(ps: seq<LocationProjection>, selected: seq<nat>)
    requires forall i, j :: 0 <= i < j < |ps| ==> ps[i].location != ps[j].location
    ensures forall p :: p in Chosen(ps, selected) ==> p in ps
    ensures forall i, j :: 0 <= i < j < |Chosen(ps, selected)| ==> Chosen(ps, selected)[i].location != Chosen(ps, selected)[j].location
  {
    if ps != [] {
      var n := |ps| - 1;
      ChosenAreThere(ps[..n], selected);
      var before := Chosen(ps[..n], selected);
      forall i | 0 <= i < |before| ensures before[i].location != ps[n].location {
        assert before[i] in ps[..n];
      }
    }
  }

  lemma ChosenDistinct(b: Balances, r: Reading, changes: seq<Hypothetical>, selected: seq<nat>)
    requires Distinct(r.listed)
    ensures forall p :: DistinctLocations(AsBalances(Chosen(Projections(b, r, changes, r.listed), selected), p))
  {
    ProjectionsAreListed(b, r, changes, r.listed);
    ChosenAreThere(Projections(b, r, changes, r.listed), selected);
  }

  /** The same sum, location by location. */
  function Sum(b: Balances, r: Reading, changes: seq<Hypothetical>, selected: seq<nat>, projected: bool, listed: seq<nat>): nat {
    if listed == [] then 0
    else
      var n := |listed| - 1;
      Sum(b, r, changes, selected, projected, listed[..n])
      + if Key(r.item, listed[n]) in b && listed[n] in selected
        then AvailableToSell(AsBalance(Project(b, r, changes, listed[n]), projected)) else 0
  }

  lemma SumAvailableAppend(bs: seq<LocationBalance>, x: LocationBalance)
    ensures SumAvailable(bs + [x]) == SumAvailable(bs) + AvailableToSell(x)
  {
    assert (bs + [x])[..|bs|] == bs;
  }

  lemma ChosenAppend(ps: seq<LocationProjection>, p: LocationProjection, selected: seq<nat>)
    ensures Chosen(ps + [p], selected) == Chosen(ps, selected) + if p.location in selected then [p] else []
  {
    assert (ps + [p])[..|ps|] == ps;
  }

  lemma SumStep(ps: seq<LocationProjection>, p: LocationProjection, selected: seq<nat>, projected: bool)
    ensures SumAvailable(AsBalances(Chosen(ps + [p], selected), projected))
         == SumAvailable(AsBalances(Chosen(ps, selected), projected))
            + if p.location in selected then AvailableToSell(AsBalance(p, projected)) else 0
  {
    ChosenAppend(ps, p, selected);
    if p.location in selected {
      SumAvailableAppend(AsBalances(Chosen(ps, selected), projected), AsBalance(p, projected));
      assert AsBalances(Chosen(ps, selected) + [p], projected)
          == AsBalances(Chosen(ps, selected), projected) + [AsBalance(p, projected)];
    } else {
      assert Chosen(ps, selected) + [] == Chosen(ps, selected);
    }
  }

  lemma ProjectionsStep(b: Balances, r: Reading, changes: seq<Hypothetical>, listed: seq<nat>)
    requires listed != []
    ensures var n := |listed| - 1;
            var ps := Projections(b, r, changes, listed[..n]);
            Projections(b, r, changes, listed)
            == if Key(r.item, listed[n]) in b then ps + [Project(b, r, changes, listed[n])] else ps
  {
    assert Projections(b, r, changes, listed[..|listed| - 1]) + [] == Projections(b, r, changes, listed[..|listed| - 1]);
  }

  lemma {:induction false} SumIs(b: Balances, r: Reading, changes: seq<Hypothetical>, selected: seq<nat>, projected: bool, listed: seq<nat>)
    ensures SumAvailable(AsBalances(Chosen(Projections(b, r, changes, listed), selected), projected))
            == Sum(b, r, changes, selected, projected, listed)
  {
    if listed != [] {
      var n := |listed| - 1;
      SumIs(b, r, changes, selected, projected, listed[..n]);
      ProjectionsStep(b, r, changes, listed);
      SumStep(Projections(b, r, changes, listed[..n]), Project(b, r, changes, listed[n]), selected, projected);
    }
  }

  lemma {:induction false} SelectedByHas(selections: seq<(nat, nat)>, mapping: nat, l: nat)
    ensures l in SelectedBy(selections, mapping) <==> (mapping, l) in selections
  {
    if selections != [] {
      var n := |selections| - 1;
      SelectedByHas(selections[..n], mapping, l);
      assert (mapping, l) in selections <==> (mapping, l) in selections[..n] || (mapping, l) == selections[n];
    }
  }

  /** A channel is shown for every mapping that is not archived and for no other, with what its own
      locations have to sell, now and after the changes, within its own rules. */
  lemma {:induction false} ChannelsAre(b: Balances, r: Reading, changes: seq<Hypothetical>, ms: seq<MappingRow>,
                                       selections: seq<(nat, nat)>, c: ChannelProjection)
    ensures c in ChannelsOf(b, r, changes, ms, selections) <==>
              exists m :: m in ms && !m.archived && c.mapping == m.id
                && (var selected := SelectedBy(selections, m.id);
                    && c.currentTarget == ChannelTarget(Sum(b, r, changes, selected, false, r.listed), m.rules)
                    && c.projectedTarget == ChannelTarget(Sum(b, r, changes, selected, true, r.listed), m.rules))
  {
    if ms != [] {
      var n := |ms| - 1;
      var selected := SelectedBy(selections, ms[n].id);
      ChannelsAre(b, r, changes, ms[..n], selections, c);
      SumIs(b, r, changes, selected, false, r.listed);
      SumIs(b, r, changes, selected, true, r.listed);
      assert forall m :: m in ms <==> m in ms[..n] || m == ms[n];
    }
  }

  // ---------------------------------------------------------------------------------------
  // Dry run and real run
  // ---------------------------------------------------------------------------------------

  /** The movements do to the item's stock what the dry run was asked about. */
  ghost predicate Carries(ms: seq<Movement>, r: Reading, changes: seq<Hypothetical>) {
    forall l :: NetAt(ms, Key(r.item, l)) == DeltaAt(changes, l)
  }

  /** Units the posting puts where there was no row: those the preview cannot see. */
  function Unseen(b: Balances, r: Reading, changes: seq<Hypothetical>, selected: seq<nat>, listed: seq<nat>): nat {
    if listed == [] then 0
    else
      var n := |listed| - 1;
      var l := listed[n];
      Unseen(b, r, changes, selected, listed[..n])
      + if Key(r.item, l) !in b && l in selected
        then Max(0, DeltaAt(changes, l) - Reservations.SafetyStock(r.safety, Key(r.item, l))) else 0
  }

  /** One location: what is there to sell after the posting. */
  lemma OneLocation(b: Balances, size: nat, ms: seq<Movement>, r: Reading, changes: seq<Hypothetical>, l: nat)
    requires Checked(b) && PostingOf(b, size, ms).Posted? && Carries(ms, r, changes)
    ensures var k := Key(r.item, l);
            var actual := AvailableToSell(AsBalance(Project(Moved(b, ms), r, [], l), false));
            && (k in b ==> k in Moved(b, ms) && actual == AvailableToSell(AsBalance(Project(b, r, changes, l), true)))
            && (k !in b && k in Moved(b, ms) ==> actual == Max(0, DeltaAt(changes, l) - Reservations.SafetyStock(r.safety, k)))
            && (k !in Moved(b, ms) ==> DeltaAt(changes, l) == 0)
  {
    var k := Key(r.item, l);
    PostedBalances(b, size, ms);
    assert NetAt(ms, k) == DeltaAt(changes, l);
    if k !in Moved(b, ms) {
      NetElsewhere(ms, k);
    } else {
      assert Checked(Moved(b, ms)) && At(Moved(b, ms), k) == Moved(b, ms)[k];
    }
  }

  lemma {:induction false} SumsDiffer(b: Balances, size: nat, ms: seq<Movement>, r: Reading, changes: seq<Hypothetical>,
                                      selected: seq<nat>, listed: seq<nat>)
    requires Checked(b) && PostingOf(b, size, ms).Posted? && Carries(ms, r, changes)
    ensures Sum(Moved(b, ms), r, [], selected, false, listed)
            == Sum(b, r, changes, selected, true, listed) + Unseen(b, r, changes, selected, listed)
  {
    if listed != [] {
      var n := |listed| - 1;
      SumsDiffer(b, size, ms, r, changes, selected, listed[..n]);
      OneLocation(b, size, ms, r, changes, listed[n]);
    }
  }

  /** After an accepted posting an item has exactly what the preview said plus what was put where it
      had no row. */
  lemma PreviewShortBy(b: Balances, size: nat, ms: seq<Movement>, r: Reading, changes: seq<Hypothetical>, selected: seq<nat>)
    requires Checked(b) && PostingOf(b, size, ms).Posted? && Carries(ms, r, changes)
    ensures AvailableAt(Moved(b, ms), r, [], selected, false)
            == AvailableAt(b, r, changes, selected, true) + Unseen(b, r, changes, selected, r.listed)
  {
    SumIs(Moved(b, ms), r, [], selected, false, r.listed);
    SumIs(b, r, changes, selected, true, r.listed);
    SumsDiffer(b, size, ms, r, changes, selected, r.listed);
  }

  /** Every location the change would stock, and the mapping sells from, has a balance row, or
      receives no more than its safety stock. */
  ghost predicate Seen(b: Balances, r: Reading, changes: seq<Hypothetical>, selected: seq<nat>, listed: seq<nat>) {
    forall l :: l in listed && l in selected && Key(r.item, l) !in b ==>
      DeltaAt(changes, l) <= Reservations.SafetyStock(r.safety, Key(r.item, l))
  }

  lemma {:induction false} NothingUnseen(b: Balances, r: Reading, changes: seq<Hypothetical>, selected: seq<nat>, listed: seq<nat>)
    ensures Unseen(b, r, changes, selected, listed) == 0 <==> Seen(b, r, changes, selected, listed)
  {
    if listed != [] {
      var n := |listed| - 1;
      NothingUnseen(b, r, changes, selected, listed[..n]);
      assert forall l :: l in listed <==> l in listed[..n] || l == listed[n];
    }
  }

  /** A target rises with what is available, and stays put exactly while nothing is left beyond the
      buffer or the cap is met already. */
  lemma TargetsEqualExactly(less: nat, more: nat, rules: Rules)
    requires less <= more
    ensures ChannelTarget(less, rules) <= ChannelTarget(more, rules)
    ensures ChannelTarget(less, rules) == ChannelTarget(more, rules)
            <==> less == more || more <= rules.buffer || (rules.cap.Some? && Max(0, less - rules.buffer) >= rules.cap.value)
  {
  }

  /** The dry run never promises more than is advertised afterwards. It promises the same if and only
      if the mapping sees no new row that counts, or its buffer hides all there is afterwards, or its
      cap is met by what was previewed. */
  lemma DryRunIsRealExactly(b: Balances, size: nat, ms: seq<Movement>, r: Reading, changes: seq<Hypothetical>, selected: seq<nat>, rules: Rules)
    requires Checked(b) && PostingOf(b, size, ms).Posted? && Carries(ms, r, changes)
    ensures var preview := Target(b, r, changes, selected, rules, true);
            var actual := Target(Moved(b, ms), r, [], selected, rules, false);
            && preview <= actual
            && (preview == actual <==>
                  || Seen(b, r, changes, selected, r.listed)
                  || AvailableAt(Moved(b, ms), r, [], selected, false) <= rules.buffer
                  || (rules.cap.Some? && Max(0, AvailableAt(b, r, changes, selected, true) - rules.buffer) >= rules.cap.value))
  {
    PreviewShortBy(b, size, ms, r, changes, selected);
    NothingUnseen(b, r, changes, selected, r.listed);
    TargetsEqualExactly(AvailableAt(b, r, changes, selected, true), AvailableAt(Moved(b, ms), r, [], selected, false), rules);
  }

  /** All channels at once: the current targets read after the posting are the projected ones. */
  lemma {:induction false} DryRunIsReal(b: Balances, size: nat, ms: seq<Movement>, r: Reading, changes: seq<Hypothetical>,
                                        mappings: seq<MappingRow>, selections: seq<(nat, nat)>)
    requires Checked(b) && PostingOf(b, size, ms).Posted? && Carries(ms, r, changes)
    requires forall l :: l in r.listed && DeltaAt(changes, l) != 0 ==> Key(r.item, l) in b
    ensures var before := ChannelsOf(b, r, changes, mappings, selections);
            var after := ChannelsOf(Moved(b, ms), r, [], mappings, selections);
            && |before| == |after|
            && forall i :: 0 <= i < |before| ==>
                 after[i].mapping == before[i].mapping && after[i].currentTarget == before[i].projectedTarget
  {
    if mappings != [] {
      var n := |mappings| - 1;
      DryRunIsReal(b, size, ms, r, changes, mappings[..n], selections);
      var selected := SelectedBy(selections, mappings[n].id);
      DryRunIsRealExactly(b, size, ms, r, changes, selected, mappings[n].rules);
    }
  }

  /** A receipt at a location that has never held the item: the preview shows nothing of it. */
  lemma NewLocationIsInvisible()
    ensures var r := Reading(1, [7], Reservations.SafetyLevels(0, map[], map[]));
            var receipt := [Movement(Key(1, 7), Receipt, 5, None)];
            var changes := [Hypothetical(7, 5)];
            && PostingOf(map[], 0, receipt).Posted? && Carries(receipt, r, changes)
            && Target(map[], r, changes, [7], Rules(0, None), true) == 0
            && Target(Moved(map[], receipt), r, [], [7], Rules(0, None), false) == 5
  {
    var r := Reading(1, [7], Reservations.SafetyLevels(0, map[], map[]));
    var receipt, changes := [Movement(Key(1, 7), Receipt, 5, None)], [Hypothetical(7, 5)];
    var b: Balances := map[];
    assert receipt[..0] == [] && changes[..0] == [] && r.listed[..0] == [];
    forall l ensures NetAt(receipt, Key(1, l)) == DeltaAt(changes, l) {
    }
    assert WellFormed(receipt) by {
      assert FaultIn(receipt[0]).None?;
    }
    assert HasRoom(b, receipt);
    PostedExactly(b, 0, receipt);
    SumIs(b, r, changes, [7], true, r.listed);
    PreviewShortBy(b, 0, receipt, r, changes, [7]);
  }
}
