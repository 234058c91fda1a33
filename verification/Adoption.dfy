/**
  The starting quantity recorded when a mapping goes live (`adopt` in
  packages/inventory/src/activation.ts): one location is set to a counted figure by an ordinary
  ledger adjustment.
 */
module Adoption {
  import opened Stock
  import opened Ledger
  import opened Reservations
  import opened InventoryInvariant
  import InventoryRuns

  datatype Adopted =
    | Nothing                            // the ledger already says so
    | Posting(movements: seq<Movement>)
    | Failed(reason: string)

  const NOT_A_COUNT := "a starting quantity is a whole number of units"
  const WHICH_LOCATION := "this mapping draws on more than one location, so say which one the starting quantity is at"
  const FOREIGN_LOCATION := "that location is not one this mapping draws from"
  const BELOW_ZERO := "the starting quantity would take a location below zero"

  /** The location asked for, or the only one there is. */
  function Where(locations: seq<nat>, asked: Option<nat>): Option<nat> {
    if asked.Some? then asked
    else if |locations| == 1 then Some(locations[0])
    else None
  }

  function AdoptionOf(b: Balances, size: nat, item: nat, locations: seq<nat>, quantity: int, asked: Option<nat>): Adopted {
    if quantity < 0 then Failed(NOT_A_COUNT)
    else
      var location := Where(locations, asked);
      if location.None? then Failed(WHICH_LOCATION)
      else if location.value !in locations then Failed(FOREIGN_LOCATION)
      else AdoptedAt(b, size, Key(item, location.value), quantity)
  }

  /** The adjustment that makes a count the figure of one balance. */
  function AdoptedAt(b: Balances, size: nat, k: Key, quantity: nat): Adopted {
    var delta := quantity - At(b, k).onHand;
    if delta == 0 then Nothing
    else
      var ms := [Movement(k, Adjustment, delta, None)];
      match PostingOf(b, size, ms)
      case Posted(_, _) => Posting(ms)
      case Insufficient(_) => Failed(BELOW_ZERO)
      case Invalid(reason) => Failed(reason)
  }

  function EntriesOf(a: Adopted): seq<Movement> {
    if a.Posting? then a.movements else []
  }

  function BalancesAfter(b: Balances, a: Adopted): Balances {
    if a.Posting? then Moved(b, a.movements) else b
  }

  /** The inventory once the figure has been recorded. */
  function StateAfter(s: State, a: Adopted): State {
    s.(balances := BalancesAfter(s.balances, a), ledger := s.ledger + EntriesOf(a))
  }

  /** The location is the one asked for; without asking, the mapping's only one. */
  lemma WhereExactly(locations: seq<nat>, asked: Option<nat>, l: nat)
    ensures Where(locations, asked) == Some(l) <==> asked == Some(l) || (asked.None? && locations == [l])
  {
  }

  /** The balance of `k` is the figure, what is reserved there is as before, and so is everything else. */
  ghost predicate Settled(b: Balances, k: Key, quantity: int, after: Balances) {
    && Checked(after)
    && forall k' :: At(after, k') == if k' == k then Balance(quantity, At(b, k).reserved) else At(b, k')
  }

  /** A count is taken exactly when it covers what is reserved there. */
  lemma AdoptedAtExactly(b: Balances, size: nat, k: Key, quantity: nat)
    requires Checked(b)
    ensures var a := AdoptedAt(b, size, k, quantity);
            && (!a.Failed? <==> quantity >= At(b, k).reserved)
            && (!a.Failed? ==> Settled(b, k, quantity, BalancesAfter(b, a)))
  {
    OneMovement(b, size, Movement(k, Adjustment, quantity - At(b, k).onHand, None));
  }

  /** What is recorded is the difference, when there is one. */
  lemma {:induction false} RecordsTheDifference(b: Balances, size: nat, k: Key, quantity: nat)
    ensures var a := AdoptedAt(b, size, k, quantity);
            !a.Failed? ==> NetAt(EntriesOf(a), k) == quantity - At(b, k).onHand
  {
    var m := Movement(k, Adjustment, quantity - At(b, k).onHand, None);
    assert [m][..0] == [];
    assert NetAt([m], k) == m.delta;
  }

  /** A figure is adopted exactly when it is not negative, its location is settled and one of the
      mapping's, and it leaves what is reserved there covered. Then that location holds the figure,
      no other balance moves, the ledger grows by the difference, and the constraints still hold. */
  lemma AdoptedExactly(b: Balances, size: nat, item: nat, locations: seq<nat>, quantity: int, asked: Option<nat>)
    requires Checked(b)
    ensures var a := AdoptionOf(b, size, item, locations, quantity, asked);
            var l := Where(locations, asked);
            && (!a.Failed? <==>
                  quantity >= 0 && l.Some? && l.value in locations && quantity >= At(b, Key(item, l.value)).reserved)
            && Checked(BalancesAfter(b, a))
            && (forall k :: At(BalancesAfter(b, a), k) ==
                  if !a.Failed? && k == Key(item, l.value) then Balance(quantity, At(b, k).reserved) else At(b, k))
            && (!a.Failed? ==> NetAt(EntriesOf(a), Key(item, l.value)) == quantity - At(b, Key(item, l.value)).onHand)
  {
    var l := Where(locations, asked);
    if quantity >= 0 && l.Some? && l.value in locations {
      AdoptedAtExactly(b, size, Key(item, l.value), quantity);
      RecordsTheDifference(b, size, Key(item, l.value), quantity);
    }
  }

  /** Recording a figure keeps every invariant of the inventory: in particular the ledger still
      explains every balance. */
  lemma AdoptedKeeps(s: State, item: nat, locations: seq<nat>, quantity: int, asked: Option<nat>)
    requires Inv(s)
    ensures Inv(StateAfter(s, AdoptionOf(s.balances, |s.ledger|, item, locations, quantity, asked)))
  {
    var a := AdoptionOf(s.balances, |s.ledger|, item, locations, quantity, asked);
    if a.Posting? {
      LinkedAppend(s.ledger, a.movements);
      InventoryRuns.PostingKeeps(s, a.movements);
    } else {
      assert s.ledger + EntriesOf(a) == s.ledger;
    }
  }
}
