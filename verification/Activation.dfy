/**
  Activating a mapping as one transaction (`activateMapping` in packages/inventory/src/activation.ts):
  the preview's figures come from the balances, a starting quantity may be recorded in the ledger, and
  the mapping goes live. What the preview shows is compared with what the projection of the same item
  (packages/inventory/src/projection.ts) shows.
 */
module Activation {
  import opened Stock
  import opened Ledger
  import opened Availability
  import opened Mappings
  import opened MappingRuns
  import opened Adoption
  import opened Projection
  import Allocation
  import Reservations
  import InventoryInvariant

  /** Where the authoritative starting quantity comes from. */
  datatype Source =
    | Canonical
    | FromChannel(location: Option<nat>)
    | Counted(quantity: int, location: Option<nat>)

  /** All locations in display order, those of them that have been deleted, and the safety stock
      settings. */
  datatype Setup = Setup(listed: seq<nat>, deleted: set<nat>, safety: Reservations.SafetyLevels)

  datatype Outcome = Outcome(tables: Tables, inventory: Reservations.State, reply: Mappings.Reply)

  /** The mapping's locations, in display order. */
  function Selected(listed: seq<nat>, locations: set<nat>): seq<nat> {
    if listed == [] then []
    else
      var n := |listed| - 1;
      Selected(listed[..n], locations) + if listed[n] in locations then [listed[n]] else []
  }

  function RulesOf(m: Mapping): Rules {
    Rules(Max(0, m.buffer), if m.cap.Some? then Some(Max(0, m.cap.value)) else None)
  }

  /** What the preview adds up: every selected location, with or without a balance row, deleted or not. */
  function Shown(b: Balances, r: Reading, selected: seq<nat>): (shown: seq<LocationBalance>)
    ensures |shown| == |selected|
  {
    seq(|selected|, i requires 0 <= i < |selected| => AsBalance(Project(b, r, [], selected[i]), false))
  }

  /** What is available by the preview. */
  function Previewed(t: Tables, b: Balances, id: nat, setup: Setup): nat
    requires Mappings.WellFormed(t) && id < |t.mappings|
  {
    SumAvailable(Shown(b, Reading(t.mappings[id].item, setup.listed, setup.safety), Selected(setup.listed, t.locations[id])))
  }

  /** What the mapping would advertise, by the preview. */
  function OutboundTarget(t: Tables, b: Balances, id: nat, setup: Setup): nat
    requires Mappings.WellFormed(t) && id < |t.mappings|
  {
    ChannelTarget(Previewed(t, b, id, setup), RulesOf(t.mappings[id]))
  }

  function Recording(t: Tables, b: Balances, size: nat, id: nat, e: Entity, setup: Setup, source: Option<Source>): Adopted
    requires Mappings.WellFormed(t) && id < |t.mappings|
  {
    var item, selected := t.mappings[id].item, Selected(setup.listed, t.locations[id]);
    match source
    case None => Nothing
    case Some(Canonical) => Nothing
    case Some(FromChannel(location)) =>
      AdoptionOf(b, size, item, selected, if e.quantity.Some? then e.quantity.value else 0, location)
    case Some(Counted(quantity, location)) => AdoptionOf(b, size, item, selected, quantity, location)
  }

  /** Once the figures are known: checked, recorded and activated, or rolled back. */
  function Concluded(t: Tables, s: Reservations.State, id: nat, e: Entity, settled: bool, target: int, adopted: Adopted): Outcome
    requires Mappings.WellFormed(t)
  {
    var u := ActivateStep(t, id, e, settled, target, if adopted.Failed? then Some(adopted.reason) else None);
    if u.reply.Activated? then Outcome(u.tables, StateAfter(s, adopted), u.reply) else Outcome(t, s, u.reply)
  }

  function ActivateMapping(t: Tables, s: Reservations.State, id: nat, e: Entity, setup: Setup, source: Option<Source>): Outcome
    requires Mappings.WellFormed(t)
  {
    if id >= |t.mappings| then Outcome(t, s, NotFound)
    else
      Concluded(t, s, id, e, source.Some?, OutboundTarget(t, s.balances, id, setup),
                Recording(t, s.balances, |s.ledger|, id, e, setup, source))
  }

  /** The figure that is to be recorded, if any. */
  function Figure(e: Entity, source: Option<Source>): Option<int> {
    match source
    case Some(FromChannel(_)) => Some(if e.quantity.Some? then e.quantity.value else 0)
    case Some(Counted(quantity, _)) => Some(quantity)
    case _ => None
  }

  function Asked(source: Option<Source>): Option<nat> {
    if source.Some? && !source.value.Canonical? then source.value.location else None
  }

  /** The figure can be recorded: it is a count, its location is settled and one of the mapping's, and
      it covers what is reserved there. */
  ghost predicate Recordable(t: Tables, b: Balances, id: nat, e: Entity, setup: Setup, source: Option<Source>)
    requires Mappings.WellFormed(t) && id < |t.mappings|
  {
    var selected := Selected(setup.listed, t.locations[id]);
    var l := Where(selected, Asked(source));
    Figure(e, source).None?
    || (Figure(e, source).value >= 0 && l.Some? && l.value in selected
        && Figure(e, source).value >= At(b, Key(t.mappings[id].item, l.value)).reserved)
  }

  lemma RecordedExactly(t: Tables, b: Balances, size: nat, id: nat, e: Entity, setup: Setup, source: Option<Source>)
    requires Mappings.WellFormed(t) && Ledger.Checked(b) && id < |t.mappings|
    ensures var adopted := Recording(t, b, size, id, e, setup, source);
            var l := Where(Selected(setup.listed, t.locations[id]), Asked(source));
            && (!adopted.Failed? <==> Recordable(t, b, id, e, setup, source))
            && Ledger.Checked(BalancesAfter(b, adopted))
            && (forall k :: At(BalancesAfter(b, adopted), k) ==
                  if !adopted.Failed? && Figure(e, source).Some? && k == Key(t.mappings[id].item, l.value)
                  then Balance(Figure(e, source).value, At(b, k).reserved) else At(b, k))
  {
    if Figure(e, source).Some? {
      AdoptedExactly(b, size, t.mappings[id].item, Selected(setup.listed, t.locations[id]), Figure(e, source).value, Asked(source));
    }
  }

  /** Recording keeps the inventory's invariant: the ledger has the entry for every unit moved. */
  lemma RecordingKeeps(t: Tables, s: Reservations.State, id: nat, e: Entity, setup: Setup, source: Option<Source>)
    requires Mappings.WellFormed(t) && InventoryInvariant.Inv(s) && id < |t.mappings|
    ensures InventoryInvariant.Inv(StateAfter(s, Recording(t, s.balances, |s.ledger|, id, e, setup, source)))
  {
    if Figure(e, source).Some? {
      AdoptedKeeps(s, t.mappings[id].item, Selected(setup.listed, t.locations[id]), Figure(e, source).value, Asked(source));
    } else {
      assert s.ledger + [] == s.ledger;
    }
  }

  /** Nothing stands in the way: the mapping was approved, its entity can be written to, its listing is
      complete, and nobody is left to guess between two different quantities. */
  ghost predicate Unblocked(t: Tables, id: nat, e: Entity, settled: bool, target: int)
    requires Mappings.WellFormed(t) && id < |t.mappings|
  {
    && (t.mappings[id].status == Approved || t.mappings[id].status == Paused)
    && e.eligible && !e.missing
    && (e.siblings.Some? ==> forall s :: s in e.siblings.value ==> HasLive(t.mappings, s))
    && (settled || e.quantity.None? || e.quantity.value == target)
  }

  lemma UnblockedExactly(t: Tables, id: nat, e: Entity, settled: bool, target: int, answer: Option<string>)
    requires Inv(t) && id < |t.mappings|
    ensures var u := ActivateStep(t, id, e, settled, target, answer);
            && (u.reply.Activated? <==> Unblocked(t, id, e, settled, target) && answer.None?)
            && (!u.reply.Activated? ==> u.tables == t)
            && Inv(u.tables)
  {
    ActivatedExactly(t, id, e, settled, target, answer);
    StatusKeeps(t, Activate(id, e, settled, target, answer));
  }

  lemma ConcludedExactly(t: Tables, s: Reservations.State, id: nat, e: Entity, settled: bool, target: int, adopted: Adopted)
    requires Inv(t) && id < |t.mappings|
    ensures var o := Concluded(t, s, id, e, settled, target, adopted);
            && (o.reply.Activated? <==> Unblocked(t, id, e, settled, target) && !adopted.Failed?)
            && o.inventory == (if o.reply.Activated? then StateAfter(s, adopted) else s)
            && (!o.reply.Activated? ==> o.tables == t)
            && Inv(o.tables)
  {
    UnblockedExactly(t, id, e, settled, target, if adopted.Failed? then Some(adopted.reason) else None);
  }

  /** Activation goes through exactly when nothing stands in its way and the starting figure can be
      recorded. Then the figure's location holds it and no other balance has moved, the ledger has the
      entry for the difference, and every balance is still the sum of its entries; otherwise neither
      the mappings nor the inventory have changed. */
  lemma ActivatesExactly(t: Tables, s: Reservations.State, id: nat, e: Entity, setup: Setup, source: Option<Source>)
    requires Inv(t) && InventoryInvariant.Inv(s) && id < |t.mappings|
    ensures var o := ActivateMapping(t, s, id, e, setup, source);
            var l := Where(Selected(setup.listed, t.locations[id]), Asked(source));
            && (o.reply.Activated? <==>
                  && Unblocked(t, id, e, source.Some?, OutboundTarget(t, s.balances, id, setup))
                  && Recordable(t, s.balances, id, e, setup, source))
            && (!o.reply.Activated? ==> o.tables == t && o.inventory == s)
            && (forall k :: At(o.inventory.balances, k) ==
                  if o.reply.Activated? && Figure(e, source).Some? && k == Key(t.mappings[id].item, l.value)
                  then Balance(Figure(e, source).value, At(s.balances, k).reserved) else At(s.balances, k))
            && s.ledger <= o.inventory.ledger
            && o.inventory.reservations == s.reservations && o.inventory.mode == s.mode
            && Inv(o.tables) && InventoryInvariant.Inv(o.inventory)
  {
    var adopted := Recording(t, s.balances, |s.ledger|, id, e, setup, source);
    RecordedExactly(t, s.balances, |s.ledger|, id, e, setup, source);
    RecordingKeeps(t, s, id, e, setup, source);
    ConcludedExactly(t, s, id, e, source.Some?, OutboundTarget(t, s.balances, id, setup), adopted);
  }

  // ---------------------------------------------------------------------------------------
  // What is advertised afterwards
  // ---------------------------------------------------------------------------------------

  lemma {:induction false} SelectedAre(listed: seq<nat>, locations: set<nat>)
    ensures forall l :: l in Selected(listed, locations) <==> l in listed && l in locations
  {
    if listed != [] {
      var n := |listed| - 1;
      SelectedAre(listed[..n], locations);
      assert forall l :: l in listed <==> l in listed[..n] || l == listed[n];
    }
  }

  /** What a location has to sell. */
  function Offered(b: Balances, r: Reading, l: nat): nat {
    AvailableToSell(AsBalance(Project(b, r, [], l), false))
  }

  lemma OneShown(b: Balances, r: Reading, l: nat)
    requires Ledger.Checked(b)
    ensures SumAvailable(Shown(b, r, [l])) == Offered(b, r, l)
         == Max(0, At(b, Key(r.item, l)).onHand - At(b, Key(r.item, l)).reserved - Reservations.SafetyStock(r.safety, Key(r.item, l)))
  {
    assert Shown(b, r, [l])[..0] == [];
  }

  /** What a mapping with one location has to sell. */
  lemma TargetOfOne(t: Tables, b: Balances, id: nat, setup: Setup, l: nat)
    requires Mappings.WellFormed(t) && Ledger.Checked(b) && id < |t.mappings|
    requires Selected(setup.listed, t.locations[id]) == [l]
    ensures var k := Key(t.mappings[id].item, l);
            OutboundTarget(t, b, id, setup)
            == ChannelTarget(Max(0, At(b, k).onHand - At(b, k).reserved - Reservations.SafetyStock(setup.safety, k)),
                             RulesOf(t.mappings[id]))
  {
    OneShown(b, Reading(t.mappings[id].item, setup.listed, setup.safety), l);
  }

  /** The rules a mapping is advertised by are those of its row. */
  lemma RulesAre(m: Mapping)
    requires Mappings.Checked(m)
    ensures RulesOf(m).buffer == m.buffer
    ensures RulesOf(m).cap.Some? <==> m.cap.Some?
    ensures m.cap.Some? ==> RulesOf(m).cap.value == m.cap.value
  {
  }

  /** Activating changes neither what a mapping sells from nor how. */
  lemma RulesStay(t: Tables, s: Reservations.State, id: nat, e: Entity, settled: bool, target: int, adopted: Adopted)
    requires Mappings.WellFormed(t) && id < |t.mappings|
    ensures var o := Concluded(t, s, id, e, settled, target, adopted);
            && Mappings.WellFormed(o.tables) && id < |o.tables.mappings|
            && o.tables.locations[id] == t.locations[id] && o.tables.mappings[id].item == t.mappings[id].item
            && RulesOf(o.tables.mappings[id]) == RulesOf(t.mappings[id])
  {
  }

  /** A mapping with one location advertises the figure it was activated with, less what is reserved
      and kept back there, within its buffer and cap: with none of these, exactly the figure. */
  lemma FigureIsAdvertised(t: Tables, s: Reservations.State, id: nat, e: Entity, setup: Setup, source: Option<Source>, l: nat)
    requires Inv(t) && InventoryInvariant.Inv(s) && id < |t.mappings|
    requires Selected(setup.listed, t.locations[id]) == [l] && Figure(e, source).Some?
    requires ActivateMapping(t, s, id, e, setup, source).reply.Activated?
    ensures var m, k := t.mappings[id], Key(t.mappings[id].item, l);
            var o := ActivateMapping(t, s, id, e, setup, source);
            var free := Figure(e, source).value - At(s.balances, k).reserved - Reservations.SafetyStock(setup.safety, k);
            && id < |o.tables.mappings| && Mappings.WellFormed(o.tables)
            && OutboundTarget(o.tables, o.inventory.balances, id, setup) == ChannelTarget(Max(0, free), RulesOf(m))
  {
    var o := ActivateMapping(t, s, id, e, setup, source);
    ActivatesExactly(t, s, id, e, setup, source);
    RulesStay(t, s, id, e, source.Some?, OutboundTarget(t, s.balances, id, setup),
              Recording(t, s.balances, |s.ledger|, id, e, setup, source));
    assert l in [l];
    TargetOfOne(o.tables, o.inventory.balances, id, setup, l);
  }

  // ---------------------------------------------------------------------------------------
  // The preview and the projection
  // ---------------------------------------------------------------------------------------

  /** Locations that have not been deleted, in display order. */
  function Live(setup: Setup): seq<nat> {
    Filter(setup.listed, Kept(setup.deleted))
  }

  function Kept(deleted: set<nat>): nat -> bool {
    l => l !in deleted
  }

  /** What the projection of the item reads; it leaves deleted locations out. */
  function LiveReading(t: Tables, id: nat, setup: Setup): Reading
    requires id < |t.mappings|
  {
    Reading(t.mappings[id].item, Live(setup), setup.safety)
  }

  /** What is available by the projection. */
  function Projected(t: Tables, b: Balances, id: nat, setup: Setup): nat
    requires Mappings.WellFormed(t) && id < |t.mappings|
  {
    AvailableAt(b, LiveReading(t, id, setup), [], Selected(setup.listed, t.locations[id]), false)
  }

  /** What the mapping advertises, by the projection. */
  function CurrentTarget(t: Tables, b: Balances, id: nat, setup: Setup): nat
    requires Mappings.WellFormed(t) && id < |t.mappings|
  {
    Target(b, LiveReading(t, id, setup), [], Selected(setup.listed, t.locations[id]), RulesOf(t.mappings[id]), false)
  }

  /** Units the item has to sell at deleted locations the mapping draws from. */
  function Stranded(b: Balances, r: Reading, listed: seq<nat>, locations: set<nat>, deleted: set<nat>): nat {
    if listed == [] then 0
    else
      var n := |listed| - 1;
      Stranded(b, r, listed[..n], locations, deleted)
      + if listed[n] in locations && listed[n] in deleted then Offered(b, r, listed[n]) else 0
  }

  lemma ShownAppend(b: Balances, r: Reading, selected: seq<nat>, l: nat)
    ensures SumAvailable(Shown(b, r, selected + [l])) == SumAvailable(Shown(b, r, selected)) + Offered(b, r, l)
  {
    assert Shown(b, r, selected + [l]) == Shown(b, r, selected) + [AsBalance(Project(b, r, [], l), false)];
    SumAvailableAppend(Shown(b, r, selected), AsBalance(Project(b, r, [], l), false));
  }

  /** A location without a row has nothing to sell, so leaving it out changes no sum. */
  lemma SumAppend(b: Balances, r: Reading, chosen: seq<nat>, listed: seq<nat>, l: nat)
    ensures Sum(b, r, [], chosen, false, listed + [l])
         == Sum(b, r, [], chosen, false, listed) + if l in chosen then Offered(b, r, l) else 0
  {
    assert (listed + [l])[..|listed|] == listed;
  }

  lemma {:induction false} ShownSplits(b: Balances, r: Reading, listed: seq<nat>, locations: set<nat>, deleted: set<nat>, chosen: seq<nat>)
    requires forall l :: l in listed ==> (l in chosen <==> l in locations)
    ensures SumAvailable(Shown(b, r, Selected(listed, locations)))
         == Sum(b, r, [], chosen, false, Filter(listed, Kept(deleted))) + Stranded(b, r, listed, locations, deleted)
  {
    if listed != [] {
      var n := |listed| - 1;
      var l := listed[n];
      ShownSplits(b, r, listed[..n], locations, deleted, chosen);
      if l in locations {
        ShownAppend(b, r, Selected(listed[..n], locations), l);
      } else {
        assert Selected(listed[..n], locations) + [] == Selected(listed[..n], locations);
      }
      var live := Filter(listed[..n], Kept(deleted));
      if l in deleted {
        assert live + [] == live;
      } else {
        SumAppend(b, r, chosen, live, l);
      }
    }
  }

  lemma {:induction false} StrandedExactly(b: Balances, r: Reading, listed: seq<nat>, locations: set<nat>, deleted: set<nat>)
    ensures Stranded(b, r, listed, locations, deleted) > 0
       <==> exists l :: l in listed && l in locations && l in deleted && Offered(b, r, l) > 0
  {
    if listed != [] {
      var n := |listed| - 1;
      StrandedExactly(b, r, listed[..n], locations, deleted);
      assert forall l :: l in listed <==> l in listed[..n] || l == listed[n];
    }
  }

  /** The preview counts what lies at deleted locations, and the projection does not. */
  lemma PreviewedIsProjected(t: Tables, b: Balances, id: nat, setup: Setup)
    requires Mappings.WellFormed(t) && id < |t.mappings|
    ensures Previewed(t, b, id, setup)
         == Projected(t, b, id, setup)
            + Stranded(b, LiveReading(t, id, setup), setup.listed, t.locations[id], setup.deleted)
  {
    var r, selected := LiveReading(t, id, setup), Selected(setup.listed, t.locations[id]);
    assert Shown(b, Reading(t.mappings[id].item, setup.listed, setup.safety), selected) == Shown(b, r, selected);
    SelectedAre(setup.listed, t.locations[id]);
    ShownSplits(b, r, setup.listed, t.locations[id], setup.deleted, selected);
    SumIs(b, r, [], selected, false, r.listed);
  }

  /** The activation preview never shows less than the mapping then advertises, and shows the same
      exactly when no location it draws from was deleted with units still to sell, or the buffer hides
      all that is previewed, or the cap is met without those units. */
  lemma PreviewAgreesExactly(t: Tables, b: Balances, id: nat, setup: Setup)
    requires Mappings.WellFormed(t) && id < |t.mappings|
    ensures var rules := RulesOf(t.mappings[id]);
            && CurrentTarget(t, b, id, setup) <= OutboundTarget(t, b, id, setup)
            && (CurrentTarget(t, b, id, setup) == OutboundTarget(t, b, id, setup) <==>
                  || (forall l :: l in setup.listed && l in t.locations[id] && l in setup.deleted ==>
                        Offered(b, LiveReading(t, id, setup), l) == 0)
                  || Previewed(t, b, id, setup) <= rules.buffer
                  || (rules.cap.Some? && Max(0, Projected(t, b, id, setup) - rules.buffer) >= rules.cap.value))
  {
    PreviewedIsProjected(t, b, id, setup);
    StrandedExactly(b, LiveReading(t, id, setup), setup.listed, t.locations[id], setup.deleted);
    TargetsEqualExactly(Projected(t, b, id, setup), Previewed(t, b, id, setup), RulesOf(t.mappings[id]));
  }

  /** A mapping whose only location has been deleted advertises nothing, whatever lies there. */
  lemma DeletedOnly(t: Tables, b: Balances, id: nat, setup: Setup, l: nat)
    requires Mappings.WellFormed(t) && Ledger.Checked(b) && id < |t.mappings|
    requires setup.listed == [l] && l in setup.deleted && t.locations[id] == {l}
    ensures Selected(setup.listed, t.locations[id]) == [l]
    ensures CurrentTarget(t, b, id, setup) == 0
  {
    assert setup.listed[..0] == [] && setup.listed[..1] == setup.listed;
    FilterAppend(setup.listed, Kept(setup.deleted), 0);
  }

  /** Five units at a deleted location, as releasing an order may leave them there
      (`InventoryRuns.ReleaseRefills`): the preview shows five, and the mapping advertises none. */
  lemma DeletedStockIsPreviewed(t: Tables, b: Balances, id: nat)
    requires Mappings.WellFormed(t) && id < |t.mappings| && t.locations[id] == {7}
    requires t.mappings[id].item == 1 && t.mappings[id].buffer == 0 && t.mappings[id].cap.None?
    requires b == map[Key(1, 7) := Balance(5, 0)]
    ensures var setup := Setup([7], {7}, Reservations.SafetyLevels(0, map[], map[]));
            OutboundTarget(t, b, id, setup) == 5 && CurrentTarget(t, b, id, setup) == 0
  {
    var setup := Setup([7], {7}, Reservations.SafetyLevels(0, map[], map[]));
    DeletedOnly(t, b, id, setup, 7);
    TargetOfOne(t, b, id, setup, 7);
  }

  /** What the projection advertises of a kit: what its components, at the mapping's locations, allow,
      and nothing when that cannot be worked out. */
  function KitTarget(components: seq<Allocation.Component>, balances: ComponentBalances, split: bool, rules: Rules): nat {
    var figure := KitAvailabilityOf(components, balances, split);
    ChannelTarget(if figure.Ok? then figure.value else 0, rules)
  }

  lemma {:induction false} NothingShown(b: Balances, r: Reading, selected: seq<nat>)
    requires forall l :: Key(r.item, l) !in b
    ensures SumAvailable(Shown(b, r, selected)) == 0
  {
    if selected != [] {
      var n := |selected| - 1;
      NothingShown(b, r, selected[..n]);
      ShownAppend(b, r, selected[..n], selected[n]);
      assert selected[..n] + [selected[n]] == selected;
    }
  }

  /** The preview reads the kit's own balances. A kit without stock of its own is previewed as nothing,
      which is what it then advertises exactly when its components allow none beyond the buffer, or its
      cap is zero. */
  lemma KitPreviewAgreesExactly(t: Tables, b: Balances, id: nat, setup: Setup,
                                components: seq<Allocation.Component>, balances: ComponentBalances, split: bool)
    requires Mappings.WellFormed(t) && id < |t.mappings| && forall l :: Key(t.mappings[id].item, l) !in b
    ensures var rules := RulesOf(t.mappings[id]);
            var figure := KitAvailabilityOf(components, balances, split);
            && OutboundTarget(t, b, id, setup) == 0
            && (KitTarget(components, balances, split, rules) == 0 <==>
                  figure.Err? || figure.value <= rules.buffer || rules.cap == Some(0))
  {
    NothingShown(b, Reading(t.mappings[id].item, setup.listed, setup.safety), Selected(setup.listed, t.locations[id]));
  }

  /** Three kits can be sold by the pooled figure, and the preview shows none. */
  lemma KitIsPreviewedAsNothing(t: Tables, b: Balances, id: nat, setup: Setup)
    requires Mappings.WellFormed(t) && id < |t.mappings| && b == map[]
    requires t.mappings[id].buffer == 0 && t.mappings[id].cap.None?
    ensures OutboundTarget(t, b, id, setup) == 0
    ensures KitTarget(SPREAD_KIT, SPREAD_STOCK, true, RulesOf(t.mappings[id])) == 3
  {
    KitPreviewAgreesExactly(t, b, id, setup, SPREAD_KIT, SPREAD_STOCK, true);
    SpreadPooled();
  }
}
