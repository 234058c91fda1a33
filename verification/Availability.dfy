/**
  What may be advertised (packages/domain/src/availability.ts, packages/inventory/src/kits.ts),
  and how it compares with what an allocation would then supply.
 */
module Availability {
  import opened Stock
  import opened Allocation

  datatype LocationBalance = LocationBalance(location: nat, onHand: nat, reserved: nat, safetyStock: nat)

  /** A buffer hides units from one channel; a cap is a ceiling on what it advertises. */
  datatype Rules = Rules(buffer: nat, cap: Option<nat>)

  function AvailableToSell(b: LocationBalance): nat {
    Max(0, b.onHand - b.reserved - b.safetyStock)
  }

  predicate DistinctLocations(balances: seq<LocationBalance>) {
    forall i, j :: 0 <= i < j < |balances| ==> balances[i].location != balances[j].location
  }

  function SumAvailable(balances: seq<LocationBalance>): nat {
    if balances == [] then 0
    else SumAvailable(balances[..|balances| - 1]) + AvailableToSell(balances[|balances| - 1])
  }

  function AcrossLocationsOf(balances: seq<LocationBalance>): Result<nat> {
    if DistinctLocations(balances) then Ok(SumAvailable(balances))
    else Err("a location appears more than once in one calculation")
  }

  method AvailableToSellAcrossLocations(balances: seq<LocationBalance>) returns (r: Result<nat>)
    ensures r == AcrossLocationsOf(balances)
  {
    var seen: set<nat>, total: nat := {}, 0;
    for i := 0 to |balances|
      invariant seen == set j | 0 <= j < i :: balances[j].location
      invariant DistinctLocations(balances[..i])
      invariant total == SumAvailable(balances[..i])
    {
      if balances[i].location in seen {
        return Err("a location appears more than once in one calculation");
      }
      seen := seen + {balances[i].location};
      assert balances[..i + 1][..i] == balances[..i];
      total := total + AvailableToSell(balances[i]);
    }
    assert balances[..|balances|] == balances;
    r := Ok(total);
  }

  function ChannelTarget(availableToSell: nat, rules: Rules): nat {
    var afterBuffer := Max(0, availableToSell - rules.buffer);
    match rules.cap
    case None => afterBuffer
    case Some(cap) => Min(afterBuffer, cap)
  }

  /** A location has `n` units to sell when they fit on the shelf beside what is reserved and the safety
      stock; and a channel may be told of `n` when they leave its buffer and respect its cap. */
  lemma AdvertisedExactly(b: LocationBalance, available: nat, rules: Rules, n: nat)
    ensures n <= AvailableToSell(b) <==> n == 0 || n + b.reserved + b.safetyStock <= b.onHand
    ensures n <= ChannelTarget(available, rules)
            <==> (n == 0 || n + rules.buffer <= available) && (rules.cap.Some? ==> n <= rules.cap.value)
  {
  }

  // ---------------------------------------------------------------------------------------
  // Kits
  // ---------------------------------------------------------------------------------------

  /** Balances of each component, keyed by item; an absent item has none. */
  type ComponentBalances = map<nat, seq<LocationBalance>>

  function BalancesOf(balances: ComponentBalances, item: nat): seq<LocationBalance> {
    if item in balances then balances[item] else []
  }

  /** What the first balance naming a location has to sell, or nothing. */
  function FoundAt(balances: seq<LocationBalance>, location: nat): nat {
    if balances == [] then 0
    else if balances[0].location == location then AvailableToSell(balances[0])
    else FoundAt(balances[1..], location)
  }

  /** The same balances as the allocation arithmetic sees them. */
  function AsAvailability(balances: ComponentBalances): Availability {
    map item, i | item in balances && 0 <= i < |balances[item]|
      :: Key(item, balances[item][i].location) := FoundAt(balances[item], balances[item][i].location)
  }

  lemma {:induction false} FoundNowhere(balances: seq<LocationBalance>, location: nat)
    requires forall i :: 0 <= i < |balances| ==> balances[i].location != location
    ensures FoundAt(balances, location) == 0
  {
    if balances != [] {
      FoundNowhere(balances[1..], location);
    }
  }

  lemma AvailabilityIs(balances: ComponentBalances, item: nat, location: nat)
    ensures Available(AsAvailability(balances), item, location) == FoundAt(BalancesOf(balances, item), location)
  {
    var bs := BalancesOf(balances, item);
    if i :| 0 <= i < |bs| && bs[i].location == location {
      assert item in balances && Key(item, balances[item][i].location) in AsAvailability(balances);
    } else {
      FoundNowhere(bs, location);
    }
  }

  /** Locations in the order they are first met, without repeats. */
  function LocationsIn(balances: seq<LocationBalance>, seen: seq<nat>): (r: seq<nat>)
    requires Distinct(seen)
    ensures Distinct(r)
    ensures forall l :: l in r <==> l in seen || exists i :: 0 <= i < |balances| && balances[i].location == l
  {
    if balances == [] then seen
    else
      var n := |balances| - 1;
      var r := LocationsIn(balances[..n], seen);
      if balances[n].location in r then r else r + [balances[n].location]
  }

  function KitLocations(components: seq<Component>, balances: ComponentBalances): (r: seq<nat>)
    ensures Distinct(r)
    ensures forall c, i :: c in components && 0 <= i < |BalancesOf(balances, c.item)|
                           ==> BalancesOf(balances, c.item)[i].location in r
  {
    if components == [] then []
    else
      var n := |components| - 1;
      assert forall c :: c in components <==> c in components[..n] || c == components[n];
      LocationsIn(BalancesOf(balances, components[n].item), KitLocations(components[..n], balances))
  }

  function PooledBound(components: seq<Component>, balances: ComponentBalances): Option<nat>
    requires PositiveUnits(components)
  {
    if components == [] then None
    else
      var n := |components| - 1;
      var here := SumAvailable(BalancesOf(balances, components[n].item)) / components[n].units;
      match PooledBound(components[..n], balances)
      case None => Some(here)
      case Some(c) => Some(Min(c, here))
  }

  /** Components may come from different locations: aggregate each, then take the minimum. */
  function PooledCapacity(components: seq<Component>, balances: ComponentBalances): nat
    requires PositiveUnits(components)
  {
    match PooledBound(components, balances)
    case None => 0
    case Some(c) => c
  }

  /** Each kit comes from one location: take the minimum there, then sum over locations. */
  function PerLocationCapacity(components: seq<Component>, balances: ComponentBalances): nat
    requires PositiveUnits(components)
  {
    TotalCapacity(components, AsAvailability(balances), KitLocations(components, balances))
  }

  predicate ValidRecipe(components: seq<Component>) {
    && components != []
    && PositiveUnits(components)
    && forall i, j :: 0 <= i < j < |components| ==> components[i].item != components[j].item
  }

  predicate PoolsDistinct(components: seq<Component>, balances: ComponentBalances) {
    forall c :: c in components ==> DistinctLocations(BalancesOf(balances, c.item))
  }

  function KitAvailabilityOf(components: seq<Component>, balances: ComponentBalances, split: bool): Result<nat> {
    if !ValidRecipe(components) then Err("a kit recipe lists distinct components in positive quantities")
    else if !split then Ok(PerLocationCapacity(components, balances))
    else if !PoolsDistinct(components, balances) then Err("a location appears more than once in one calculation")
    else Ok(PooledCapacity(components, balances))
  }

  /** There is a figure unless the recipe is empty, names a component twice or in no positive quantity, or,
      when stock is pooled, a component's balances name a location twice. */
  lemma KitErrorsExactly(components: seq<Component>, balances: ComponentBalances, split: bool)
    ensures KitAvailabilityOf(components, balances, split).Err? <==>
              || components == []
              || (exists c :: c in components && c.units < 1)
              || (exists i, j :: 0 <= i < j < |components| && components[i].item == components[j].item)
              || (split && exists c :: c in components && c.item in balances
                            && exists i, j :: 0 <= i < j < |balances[c.item]|
                                           && balances[c.item][i].location == balances[c.item][j].location)
  {
  }

  method KitAvailability(components: seq<Component>, balances: ComponentBalances, split: bool) returns (r: Result<nat>)
    ensures r == KitAvailabilityOf(components, balances, split)
  {
    var valid := CheckRecipe(components);
    if !valid {
      return Err("a kit recipe lists distinct components in positive quantities");
    }
    if split {
      r := KitAvailabilityPooled(components, balances);
    } else {
      var n := KitAvailabilityPerLocation(components, balances);
      r := Ok(n);
    }
  }

  /** A recipe lists something, in positive quantities, and nothing twice. */
  method CheckRecipe(components: seq<Component>) returns (valid: bool)
    ensures valid == ValidRecipe(components)
  {
    if components == [] {
      return false;
    }
    var ids: set<nat> := {};
    for i := 0 to |components|
      invariant ids == set j | 0 <= j < i :: components[j].item
      invariant PositiveUnits(components[..i]) && DistinctItems(components[..i])
    {
      assert components[i] in components;
      if components[i].units < 1 || components[i].item in ids {
        return false;
      }
      ids := ids + {components[i].item};
    }
    assert components[..|components|] == components;
    valid := true;
  }

  /** The smaller of two bounds; `None` is no bound. */
  function Lower(bound: Option<nat>, n: nat): Option<nat> {
    match bound
    case None => Some(n)
    case Some(b) => Some(Min(b, n))
  }

  method KitAvailabilityPooled(components: seq<Component>, balances: ComponentBalances) returns (r: Result<nat>)
    requires ValidRecipe(components)
    ensures r == KitAvailabilityOf(components, balances, true)
  {
    var capacity: Option<nat> := None;
    for i := 0 to |components|
      invariant PoolsDistinct(components[..i], balances)
      invariant capacity == PooledBound(components[..i], balances)
    {
      var c := components[i];
      var available := AvailableToSellAcrossLocations(BalancesOf(balances, c.item));
      if available.Err? {
        return Err(available.error);
      }
      assert components[..i + 1][..i] == components[..i];
      NotNegative(available.value, c.units);
      var here: nat := available.value / c.units;
      capacity := Lower(capacity, here);
    }
    assert components[..|components|] == components;
    r := Ok(if capacity.None? then 0 else capacity.value);
  }

  method Find(balances: seq<LocationBalance>, location: nat) returns (available: nat)
    ensures available == FoundAt(balances, location)
  {
    for i := 0 to |balances|
      invariant FoundAt(balances, location) == FoundAt(balances[i..], location)
    {
      if balances[i].location == location {
        return AvailableToSell(balances[i]);
      }
    }
    return 0;
  }

  method AddLocations(balances: seq<LocationBalance>, seen: seq<nat>) returns (locations: seq<nat>)
    requires Distinct(seen)
    ensures locations == LocationsIn(balances, seen)
  {
    locations := seen;
    for j := 0 to |balances|
      invariant locations == LocationsIn(balances[..j], seen)
    {
      assert balances[..j + 1][..j] == balances[..j];
      if balances[j].location !in locations {
        locations := locations + [balances[j].location];
      }
    }
    assert balances[..|balances|] == balances;
  }

  method CollectLocations(components: seq<Component>, balances: ComponentBalances) returns (locations: seq<nat>)
    ensures locations == KitLocations(components, balances)
  {
    locations := [];
    for i := 0 to |components|
      invariant locations == KitLocations(components[..i], balances)
    {
      locations := AddLocations(BalancesOf(balances, components[i].item), locations);
      assert components[..i + 1][..i] == components[..i];
    }
    assert components[..|components|] == components;
  }

  lemma NotNegative(a: nat, u: int)
    requires u >= 1
    ensures a / u >= 0
  {
  }

  method CapacityHere(components: seq<Component>, balances: ComponentBalances, location: nat) returns (c: nat)
    requires PositiveUnits(components)
    ensures c == CapacityAt(components, AsAvailability(balances), location)
  {
    var here: Option<nat> := None;
    for j := 0 to |components|
      invariant here == CapacityBound(components[..j], AsAvailability(balances), location)
    {
      var available := Find(BalancesOf(balances, components[j].item), location);
      AvailabilityIs(balances, components[j].item, location);
      assert components[..j + 1][..j] == components[..j];
      var units := components[j].units;
      NotNegative(available, units);
      var n: nat := available / units;
      here := Lower(here, n);
    }
    assert components[..|components|] == components;
    c := if here.None? then 0 else here.value;
  }

  method KitAvailabilityPerLocation(components: seq<Component>, balances: ComponentBalances) returns (total: nat)
    requires ValidRecipe(components)
    ensures total == PerLocationCapacity(components, balances)
  {
    var locations := CollectLocations(components, balances);
    total := 0;
    for i := 0 to |locations|
      invariant total + TotalCapacity(components, AsAvailability(balances), locations[i..])
             == PerLocationCapacity(components, balances)
    {
      var here := CapacityHere(components, balances, locations[i]);
      total := total + here;
    }
  }

  // ---------------------------------------------------------------------------------------
  // What the kit figures mean
  // ---------------------------------------------------------------------------------------

  /** The pooled figure is the greatest number of kits the total stock of every component allows. */
  lemma {:induction false} PooledIsGreatest(components: seq<Component>, balances: ComponentBalances, k: nat)
    requires components != [] && PositiveUnits(components)
    ensures k <= PooledCapacity(components, balances)
       <==> forall c :: c in components ==> k * c.units <= SumAvailable(BalancesOf(balances, c.item))
  {
    var last := |components| - 1;
    var c := components[last];
    FloorDivision(k, SumAvailable(BalancesOf(balances, c.item)), c.units);
    assert forall d :: d in components <==> d in components[..last] || d == c;
    if last > 0 {
      PooledIsGreatest(components[..last], balances, k);
      assert PooledBound(components[..last], balances).Some?;
    } else {
      assert components == [c];
      assert PooledBound(components[..last], balances).None?;
    }
  }

  lemma {:induction false} TotalWithout(components: seq<Component>, avail: Availability, order: seq<nat>, i: nat)
    requires PositiveUnits(components) && i < |order|
    ensures TotalCapacity(components, avail, order)
         == CapacityAt(components, avail, order[i]) + TotalCapacity(components, avail, order[..i] + order[i + 1..])
  {
    var rest := order[..i] + order[i + 1..];
    if i == 0 {
      assert rest == order[1..];
    } else {
      TotalWithout(components, avail, order[1..], i - 1);
      assert rest[1..] == order[1..][..i - 1] + order[1..][i..];
    }
  }

  /** Total capacity depends on which locations are listed, not on their order, and a location
      with nothing to give does not matter. */
  lemma {:induction false} TotalMonotone(components: seq<Component>, avail: Availability, a: seq<nat>, b: seq<nat>)
    requires PositiveUnits(components) && Distinct(a) && Distinct(b)
    requires forall l :: l in a && CapacityAt(components, avail, l) > 0 ==> l in b
    ensures TotalCapacity(components, avail, a) <= TotalCapacity(components, avail, b)
  {
    if a != [] {
      assert a[0] in a;
      if CapacityAt(components, avail, a[0]) == 0 {
        TotalMonotone(components, avail, a[1..], b);
      } else {
        var i :| 0 <= i < |b| && b[i] == a[0];
        var rest := b[..i] + b[i + 1..];
        TotalWithout(components, avail, b, i);
        forall l | l in a[1..] && CapacityAt(components, avail, l) > 0 ensures l in rest {
          var j :| 0 <= j < |b| && b[j] == l;
          assert l == if j < i then rest[j] else rest[j - 1];
        }
        TotalMonotone(components, avail, a[1..], rest);
      }
    }
  }

  /** One unit of one item: how a plain item is planned. */
  function Plain(item: nat): seq<Component> {
    [Component(item, 1)]
  }

  lemma PlainCapacity(avail: Availability, item: nat, location: nat)
    ensures CapacityAt(Plain(item), avail, location) == Available(avail, item, location)
  {
    assert CapacityBound(Plain(item)[..0], avail, location).None?;
  }

  lemma {:induction false} FoundIs(balances: seq<LocationBalance>, i: nat)
    requires DistinctLocations(balances) && i < |balances|
    ensures FoundAt(balances, balances[i].location) == AvailableToSell(balances[i])
  {
    if i > 0 {
      FoundIs(balances[1..], i - 1);
    }
  }

  function LocationList(balances: seq<LocationBalance>): (r: seq<nat>) {
    seq(|balances|, i requires 0 <= i < |balances| => balances[i].location)
  }

  lemma {:induction false} SumIsTotal(avail: Availability, item: nat, balances: seq<LocationBalance>)
    requires forall i :: 0 <= i < |balances| ==>
               Available(avail, item, balances[i].location) == AvailableToSell(balances[i])
    ensures TotalCapacity(Plain(item), avail, LocationList(balances)) == SumAvailable(balances)
  {
    if balances != [] {
      var n := |balances| - 1;
      SumIsTotal(avail, item, balances[..n]);
      PlainCapacity(avail, item, balances[n].location);
      var list := LocationList(balances);
      TotalWithout(Plain(item), avail, list, n);
      assert list[..n] + list[n + 1..] == LocationList(balances[..n]);
    }
  }

  lemma OwnFigures(balances: ComponentBalances, item: nat)
    requires DistinctLocations(BalancesOf(balances, item))
    ensures var bs := BalancesOf(balances, item);
            forall i :: 0 <= i < |bs| ==> Available(AsAvailability(balances), item, bs[i].location) == AvailableToSell(bs[i])
  {
    var bs := BalancesOf(balances, item);
    forall i | 0 <= i < |bs| ensures Available(AsAvailability(balances), item, bs[i].location) == AvailableToSell(bs[i]) {
      AvailabilityIs(balances, item, bs[i].location);
      FoundIs(bs, i);
    }
  }

  /** A location with something to sell is among the item's own. */
  lemma StockedIsListed(balances: ComponentBalances, item: nat, l: nat)
    requires CapacityAt(Plain(item), AsAvailability(balances), l) > 0
    ensures l in LocationList(BalancesOf(balances, item))
  {
    var bs := BalancesOf(balances, item);
    PlainCapacity(AsAvailability(balances), item, l);
    AvailabilityIs(balances, item, l);
    if i :| 0 <= i < |bs| && bs[i].location == l {
      assert LocationList(bs)[i] == l;
    } else {
      FoundNowhere(bs, l);
    }
  }

  /** Summing a component's own balances is summing it over any list of locations that covers them. */
  lemma SumOverLocations(balances: ComponentBalances, item: nat, order: seq<nat>)
    requires DistinctLocations(BalancesOf(balances, item)) && Distinct(order)
    requires forall i :: 0 <= i < |BalancesOf(balances, item)| ==> BalancesOf(balances, item)[i].location in order
    ensures TotalCapacity(Plain(item), AsAvailability(balances), order) == SumAvailable(BalancesOf(balances, item))
  {
    var bs, avail := BalancesOf(balances, item), AsAvailability(balances);
    var list := LocationList(bs);
    OwnFigures(balances, item);
    SumIsTotal(avail, item, bs);
    forall l | l in order && CapacityAt(Plain(item), avail, l) > 0 ensures l in list {
      StockedIsListed(balances, item, l);
    }
    TotalMonotone(Plain(item), avail, list, order);
    TotalMonotone(Plain(item), avail, order, list);
  }

  /** At one location, what the kits need of a component is there. */
  lemma CoversHere(components: seq<Component>, avail: Availability, location: nat, c: Component)
    requires PositiveUnits(components) && c in components
    ensures CapacityAt(components, avail, location) * c.units <= CapacityAt(Plain(c.item), avail, location)
  {
    CapacityIsGreatest(components, avail, location, CapacityAt(components, avail, location));
    PlainCapacity(avail, c.item, location);
  }

  lemma CoverTogether(here: nat, rest: nat, units: int, plainHere: nat, plainRest: nat)
    requires here * units <= plainHere && rest * units <= plainRest
    ensures (here + rest) * units <= plainHere + plainRest
  {
    Distribute(here, rest, units, here * units, rest * units);
  }

  lemma {:induction false} ComponentCovers(components: seq<Component>, avail: Availability, order: seq<nat>, c: Component)
    requires PositiveUnits(components) && c in components
    ensures TotalCapacity(components, avail, order) * c.units <= TotalCapacity(Plain(c.item), avail, order)
  {
    if order != [] {
      ComponentCovers(components, avail, order[1..], c);
      CoversHere(components, avail, order[0], c);
      CoverTogether(CapacityAt(components, avail, order[0]), TotalCapacity(components, avail, order[1..]), c.units,
              CapacityAt(Plain(c.item), avail, order[0]), TotalCapacity(Plain(c.item), avail, order[1..]));
    }
  }

  /** Requiring each kit to come from one location is never less conservative than pooling. */
  lemma PerLocationAtMostPooled(components: seq<Component>, balances: ComponentBalances)
    requires ValidRecipe(components) && PoolsDistinct(components, balances)
    ensures PerLocationCapacity(components, balances) <= PooledCapacity(components, balances)
  {
    var order := KitLocations(components, balances);
    forall c | c in components
      ensures PerLocationCapacity(components, balances) * c.units <= SumAvailable(BalancesOf(balances, c.item))
    {
      ComponentCovers(components, AsAvailability(balances), order, c);
      SumOverLocations(balances, c.item, order);
    }
    PooledIsGreatest(components, balances, PerLocationCapacity(components, balances));
  }

  // ---------------------------------------------------------------------------------------
  // What is advertised can be supplied, or is reported
  // ---------------------------------------------------------------------------------------

  /** Every location holding a component is among the eligible ones. */
  ghost predicate Covers(order: seq<nat>, components: seq<Component>, balances: ComponentBalances) {
    && Distinct(order)
    && forall c, i :: c in components && 0 <= i < |BalancesOf(balances, c.item)|
                      ==> BalancesOf(balances, c.item)[i].location in order
  }

  lemma {:induction false} NoStockNoCapacity(components: seq<Component>, avail: Availability, location: nat)
    requires components != [] && PositiveUnits(components)
    requires CapacityAt(components, avail, location) > 0
    ensures forall c :: c in components ==> Available(avail, c.item, location) > 0
  {
    CapacityIsGreatest(components, avail, location, 1);
  }

  lemma PerLocationOverOrder(components: seq<Component>, balances: ComponentBalances, order: seq<nat>)
    requires ValidRecipe(components) && Covers(order, components, balances)
    ensures TotalCapacity(components, AsAvailability(balances), order) == PerLocationCapacity(components, balances)
  {
    var avail, own := AsAvailability(balances), KitLocations(components, balances);
    forall l | CapacityAt(components, avail, l) > 0 ensures l in own && l in order {
      NoStockNoCapacity(components, avail, l);
      var c := components[0];
      AvailabilityIs(balances, c.item, l);
      if forall i :: 0 <= i < |BalancesOf(balances, c.item)| ==> BalancesOf(balances, c.item)[i].location != l {
        FoundNowhere(BalancesOf(balances, c.item), l);
      }
    }
    TotalMonotone(components, avail, own, order);
    TotalMonotone(components, avail, order, own);
  }

  /** An order no larger than the target derived from the per-location figure either is filled in
      full or is reported as blocked by the split setting; with splitting on, it is filled. */
  lemma AdvertisedIsSuppliedOrReported(components: seq<Component>, balances: ComponentBalances, order: seq<nat>,
                                       rules: Rules, quantity: int, split: bool)
    requires ValidRecipe(components) && Covers(order, components, balances)
    requires 1 <= quantity <= ChannelTarget(PerLocationCapacity(components, balances), rules)
    ensures var plan := PlanOf(quantity, components, AsAvailability(balances), order, split);
            plan.shortage == 0 || (!split && plan.splitBlocked)
  {
    PerLocationOverOrder(components, balances, order);
    SplitRemainingIs(components, AsAvailability(balances), order, quantity);
    FirstFitIs(quantity, components, AsAvailability(balances), order);
    SplitBlockedExactly(quantity, components, AsAvailability(balances), order);
    AllocatedPlusShortage(quantity, components, AsAvailability(balances), order, split);
  }

  /** For a plain item the advertised sum, the per-location figure and the pooled figure are one number. */
  lemma PlainItemFigures(item: nat, balances: ComponentBalances)
    requires DistinctLocations(BalancesOf(balances, item))
    ensures AcrossLocationsOf(BalancesOf(balances, item)) == Ok(PerLocationCapacity(Plain(item), balances))
    ensures PooledCapacity(Plain(item), balances) == PerLocationCapacity(Plain(item), balances)
  {
    assert Component(item, 1) in Plain(item);
    SumOverLocations(balances, item, KitLocations(Plain(item), balances));
    assert PooledBound(Plain(item)[..0], balances).None?;
  }

  /** A plain item in either split setting: what its channel target promises is supplied or reported. */
  lemma PlainItemIsSuppliedOrReported(item: nat, balances: ComponentBalances, order: seq<nat>,
                                      rules: Rules, quantity: int, split: bool, advertised: nat)
    requires AcrossLocationsOf(BalancesOf(balances, item)) == Ok(advertised)
    requires Covers(order, Plain(item), balances)
    requires 1 <= quantity <= ChannelTarget(advertised, rules)
    ensures var plan := PlanOf(quantity, Plain(item), AsAvailability(balances), order, split);
            plan.shortage == 0 || (!split && plan.splitBlocked)
  {
    PlainItemFigures(item, balances);
    AdvertisedIsSuppliedOrReported(Plain(item), balances, order, rules, quantity, split);
  }

  /** With splitting on, a plan supplies min(quantity, per-location figure) and nothing more. */
  lemma SplitSuppliesPerLocation(components: seq<Component>, balances: ComponentBalances, order: seq<nat>, quantity: int)
    requires ValidRecipe(components) && Covers(order, components, balances) && quantity >= 1
    ensures PlanOf(quantity, components, AsAvailability(balances), order, true).supplied
         == Min(quantity, PerLocationCapacity(components, balances))
  {
    PerLocationOverOrder(components, balances, order);
    SplitRemainingIs(components, AsAvailability(balances), order, quantity);
  }

  function SplitShortage(components: seq<Component>, balances: ComponentBalances, order: seq<nat>, quantity: int): int
    requires ValidRecipe(components) && quantity >= 1
  {
    PlanOf(quantity, components, AsAvailability(balances), order, true).shortage
  }

  /** With splitting on a kit advertises its pooled figure. Every order up to the target is then
      filled exactly when the target does not exceed the per-location figure. */
  lemma PooledPromiseKeptExactly(components: seq<Component>, balances: ComponentBalances, order: seq<nat>, rules: Rules)
    requires ValidRecipe(components) && Covers(order, components, balances)
    ensures var target := ChannelTarget(PooledCapacity(components, balances), rules);
            (forall q :: 1 <= q <= target ==> SplitShortage(components, balances, order, q) == 0)
            <==> target <= PerLocationCapacity(components, balances)
  {
    var target, figure := ChannelTarget(PooledCapacity(components, balances), rules), PerLocationCapacity(components, balances);
    forall q | q >= 1 ensures SplitShortage(components, balances, order, q) == q - Min(q, figure) {
      SplitSuppliesPerLocation(components, balances, order, q);
    }
    if target > figure {
      assert SplitShortage(components, balances, order, target) != 0;
    }
  }

  /** A kit of two parts, one kept only here and the other only there. */
  const SPREAD_KIT: seq<Component> := [Component(1, 1), Component(2, 1)]
  const SPREAD_STOCK: ComponentBalances := map[1 := [LocationBalance(10, 3, 0, 0)], 2 := [LocationBalance(20, 3, 0, 0)]]

  lemma SpreadSums()
    ensures SumAvailable(BalancesOf(SPREAD_STOCK, 1)) == 3 && SumAvailable(BalancesOf(SPREAD_STOCK, 2)) == 3
    ensures PoolsDistinct(SPREAD_KIT, SPREAD_STOCK)
  {
  }

  lemma SpreadSupplies(k: nat)
    ensures k <= PooledCapacity(SPREAD_KIT, SPREAD_STOCK) <==> k <= 3
  {
    SpreadSums();
    PooledIsGreatest(SPREAD_KIT, SPREAD_STOCK, k);
    assert SPREAD_KIT[0] in SPREAD_KIT;
  }

  lemma SpreadPooled()
    ensures KitAvailabilityOf(SPREAD_KIT, SPREAD_STOCK, true) == Ok(3)
  {
    SpreadSums();
    SpreadSupplies(3);
    SpreadSupplies(4);
    assert SPREAD_KIT[0] in SPREAD_KIT && SPREAD_KIT[1] in SPREAD_KIT;
  }

  lemma SpreadCapacity(location: nat)
    ensures CapacityAt(SPREAD_KIT, AsAvailability(SPREAD_STOCK), location) == 0
  {
    assert SPREAD_KIT[0] in SPREAD_KIT && SPREAD_KIT[1] in SPREAD_KIT;
    CapacityIsGreatest(SPREAD_KIT, AsAvailability(SPREAD_STOCK), location, 1);
    AvailabilityIs(SPREAD_STOCK, 1, location);
    AvailabilityIs(SPREAD_STOCK, 2, location);
  }

  /** The pooled figure can promise three kits of which no plan supplies one, and since splitting
      is on nothing is reported as blocked. */
  lemma PooledCanOverpromise()
    ensures KitAvailabilityOf(SPREAD_KIT, SPREAD_STOCK, true) == Ok(3)
    ensures PlanOf(1, SPREAD_KIT, AsAvailability(SPREAD_STOCK), [10, 20], true) == Plan(0, 1, false, [])
  {
    SpreadPooled();
    forall l ensures CapacityAt(SPREAD_KIT, AsAvailability(SPREAD_STOCK), l) == 0 {
      SpreadCapacity(l);
    }
    NothingPlanned(1, SPREAD_KIT, AsAvailability(SPREAD_STOCK), [10, 20]);
  }

  lemma NothingPlanned(quantity: nat, components: seq<Component>, avail: Availability, order: seq<nat>)
    requires quantity >= 1 && PositiveUnits(components) && forall l :: l in order ==> CapacityAt(components, avail, l) == 0
    ensures PlanOf(quantity, components, avail, order, true) == Plan(0, quantity, false, [])
  {
    NothingToTake(components, avail, order, quantity);
  }

  lemma {:induction false} NothingToTake(components: seq<Component>, avail: Availability, order: seq<nat>, remaining: nat)
    requires PositiveUnits(components) && forall l :: l in order ==> CapacityAt(components, avail, l) == 0
    ensures SplitTakes(components, avail, order, remaining) == []
    ensures SplitRemaining(components, avail, order, remaining) == remaining
    ensures TotalCapacity(components, avail, order) == 0
  {
    if order != [] {
      assert order[0] in order;
      NothingToTake(components, avail, order[1..], remaining);
    }
  }

  // ---------------------------------------------------------------------------------------
  // Which component holds a kit's figure down
  // ---------------------------------------------------------------------------------------

  function Filter<T>(s: seq<T>, keep: T -> bool): seq<T> {
    if s == [] then []
    else Filter(s[..|s| - 1], keep) + if keep(s[|s| - 1]) then [s[|s| - 1]] else []
  }

  lemma {:induction false} FilterHas<T>(s: seq<T>, keep: T -> bool, x: T)
    ensures x in Filter(s, keep) <==> x in s && keep(x)
  {
    if s != [] {
      var n := |s| - 1;
      FilterHas(s[..n], keep, x);
      assert x in s <==> x in s[..n] || x == s[n];
    }
  }

  lemma FilterAppend<T>(s: seq<T>, keep: T -> bool, i: nat)
    requires i < |s|
    ensures Filter(s[..i + 1], keep) == Filter(s[..i], keep) + if keep(s[i]) then [s[i]] else []
  {
    assert s[..i + 1][..i] == s[..i];
  }

  /** The component, alone, allows exactly as many kits as all of them together. */
  function Limits(balances: ComponentBalances, split: bool, capacity: nat): Component -> bool {
    c => KitAvailabilityOf([c], balances, split) == Ok(capacity)
  }

  function LimitedByOf(components: seq<Component>, balances: ComponentBalances, split: bool, capacity: nat): seq<Component> {
    Filter(components, Limits(balances, split, capacity))
  }

  lemma LimitedByHas(components: seq<Component>, balances: ComponentBalances, split: bool, capacity: nat, c: Component)
    ensures c in LimitedByOf(components, balances, split, capacity)
       <==> c in components && KitAvailabilityOf([c], balances, split) == Ok(capacity)
  {
    FilterHas(components, Limits(balances, split, capacity), c);
  }

  /** A kit's figure and the components that explain it. */
  datatype Capacity = Capacity(kits: nat, limitedBy: seq<Component>)

  method KitCapacity(components: seq<Component>, balances: ComponentBalances, split: bool)
    returns (r: Result<Capacity>)
    ensures var figure := KitAvailabilityOf(components, balances, split);
            && (r.Ok? <==> figure.Ok?)
            && (r.Err? ==> r.error == figure.error)
            && (r.Ok? ==> r.value.kits == figure.value)
            && (r.Ok? ==> r.value.limitedBy == LimitedByOf(components, balances, split, figure.value))
  {
    var capacity := KitAvailability(components, balances, split);
    if capacity.Err? {
      return Err(capacity.error);
    }
    var limitedBy := LimitedBy(components, balances, split, capacity.value);
    r := Ok(Capacity(capacity.value, limitedBy));
  }

  /** Asks for one component at a time whether it alone would give the same figure. */
  method LimitedBy(components: seq<Component>, balances: ComponentBalances, split: bool, capacity: nat)
    returns (limitedBy: seq<Component>)
    ensures limitedBy == LimitedByOf(components, balances, split, capacity)
  {
    limitedBy := [];
    ghost var keep := Limits(balances, split, capacity);
    for i := 0 to |components|
      invariant limitedBy == Filter(components[..i], keep)
    {
      var alone := KitAvailability([components[i]], balances, split);
      FilterAppend(components, keep, i);
      if alone == Ok(capacity) {
        limitedBy := limitedBy + [components[i]];
      }
    }
    assert components[..|components|] == components;
  }

  lemma PooledAlone(c: Component, balances: ComponentBalances)
    requires c.units >= 1
    ensures PooledCapacity([c], balances) == SumAvailable(BalancesOf(balances, c.item)) / c.units
  {
    assert PooledBound([c][..0], balances).None?;
  }

  lemma {:induction false} PooledIsAttained(components: seq<Component>, balances: ComponentBalances) returns (c: Component)
    requires components != [] && PositiveUnits(components)
    ensures c in components && PooledCapacity([c], balances) == PooledCapacity(components, balances)
  {
    var n := |components| - 1;
    c := components[n];
    PooledAlone(c, balances);
    if n > 0 {
      assert PooledBound(components[..n], balances).Some?;
      if PooledCapacity(components[..n], balances) <= PooledCapacity([c], balances) {
        c := PooledIsAttained(components[..n], balances);
      }
    } else {
      assert components == [c];
    }
  }

  /** When components are pooled, the figure always names a component holding it down. */
  lemma PooledAlwaysExplained(components: seq<Component>, balances: ComponentBalances, capacity: nat)
    requires KitAvailabilityOf(components, balances, true) == Ok(capacity)
    ensures LimitedByOf(components, balances, true, capacity) != []
  {
    var c := PooledIsAttained(components, balances);
    LimitedByHas(components, balances, true, capacity, c);
  }

  /** This component is the scarcest everywhere. */
  ghost predicate ScarcestEverywhere(c: Component, components: seq<Component>, balances: ComponentBalances)
    requires PositiveUnits(components) && c in components
  {
    forall l :: l in KitLocations(components, balances) ==>
      CapacityAt([c], AsAvailability(balances), l) == CapacityAt(components, AsAvailability(balances), l)
  }

  lemma {:induction false} EqualTotals(c: Component, components: seq<Component>, avail: Availability, order: seq<nat>)
    requires PositiveUnits(components) && c in components
    ensures TotalCapacity(components, avail, order) <= TotalCapacity([c], avail, order)
    ensures TotalCapacity(components, avail, order) == TotalCapacity([c], avail, order)
       <==> forall l :: l in order ==> CapacityAt([c], avail, l) == CapacityAt(components, avail, l)
  {
    if order != [] {
      EqualTotals(c, components, avail, order[1..]);
      var here := CapacityAt(components, avail, order[0]);
      CapacityIsGreatest(components, avail, order[0], here);
      CapacityIsGreatest([c], avail, order[0], here);
      assert forall l :: l in order <==> l == order[0] || l in order[1..];
    }
  }

  /** Without splitting, the figure names a limiting component exactly when one component is the
      scarcest at every location at once. */
  lemma PerLocationExplainedExactly(components: seq<Component>, balances: ComponentBalances, capacity: nat)
    requires KitAvailabilityOf(components, balances, false) == Ok(capacity)
    ensures LimitedByOf(components, balances, false, capacity) != []
       <==> exists c :: c in components && ScarcestEverywhere(c, components, balances)
  {
    var avail, order := AsAvailability(balances), KitLocations(components, balances);
    var limitedBy := LimitedByOf(components, balances, false, capacity);
    forall c | c in components ensures c in limitedBy <==> ScarcestEverywhere(c, components, balances) {
      LimitedByHas(components, balances, false, capacity, c);
      assert c.units >= 1;
      assert Covers(order, [c], balances);
      PerLocationOverOrder([c], balances, order);
      EqualTotals(c, components, avail, order);
    }
    if limitedBy != [] {
      LimitedByHas(components, balances, false, capacity, limitedBy[0]);
    }
  }

  /** Each part of the kit, alone, could be had where it is kept. */
  lemma OneOfSpread(c: Component, location: nat)
    requires (c == Component(1, 1) && location == 10) || (c == Component(2, 1) && location == 20)
    ensures CapacityAt([c], AsAvailability(SPREAD_STOCK), location) > 0
  {
    AvailabilityIs(SPREAD_STOCK, c.item, location);
    CapacityIsGreatest([c], AsAvailability(SPREAD_STOCK), location, 1);
  }

  lemma NotScarcest(c: Component, location: nat)
    requires (c == Component(1, 1) && location == 10) || (c == Component(2, 1) && location == 20)
    ensures c in SPREAD_KIT && !ScarcestEverywhere(c, SPREAD_KIT, SPREAD_STOCK)
  {
    OneOfSpread(c, location);
    SpreadCapacity(location);
    assert SPREAD_KIT[0] in SPREAD_KIT && SPREAD_KIT[1] in SPREAD_KIT;
    assert BalancesOf(SPREAD_STOCK, c.item)[0].location == location;
  }

  lemma NothingAnywhere(components: seq<Component>, balances: ComponentBalances)
    requires ValidRecipe(components) && forall l :: CapacityAt(components, AsAvailability(balances), l) == 0
    ensures KitAvailabilityOf(components, balances, false) == Ok(0)
  {
    NothingToTake(components, AsAvailability(balances), KitLocations(components, balances), 0);
  }

  /** The same kit without splitting: none can be built, and neither part alone explains it. */
  lemma LimitedByNothing()
    ensures KitAvailabilityOf(SPREAD_KIT, SPREAD_STOCK, false) == Ok(0)
    ensures LimitedByOf(SPREAD_KIT, SPREAD_STOCK, false, 0) == []
  {
    forall l ensures CapacityAt(SPREAD_KIT, AsAvailability(SPREAD_STOCK), l) == 0 {
      SpreadCapacity(l);
    }
    NothingAnywhere(SPREAD_KIT, SPREAD_STOCK);
    NotScarcest(Component(1, 1), 10);
    NotScarcest(Component(2, 1), 20);
    PerLocationExplainedExactly(SPREAD_KIT, SPREAD_STOCK, 0);
  }
}
