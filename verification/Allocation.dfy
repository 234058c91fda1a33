/**
  Deciding where an order's units come from (packages/domain/src/allocation.ts).

  The functions ending in `Of` say which plan is chosen; the methods compute it the way the
  source does, with loops; the lemmas say what is good about it.
 */
module Allocation {
  import opened Stock

  /** What one ordered unit consumes: one unit for a plain item, several components for a kit. */
  datatype Component = Component(item: nat, units: int)

  datatype Take = Take(key: Key, quantity: int)

  datatype Plan = Plan(supplied: int, shortage: int, splitBlocked: bool, takes: seq<Take>)

  /** Available-to-sell per component and location; an absent key is zero. */
  type Availability = map<Key, nat>

  function Available(avail: Availability, item: nat, location: nat): nat {
    if Key(item, location) in avail then avail[Key(item, location)] else 0
  }

  predicate PositiveUnits(components: seq<Component>) {
    forall c :: c in components ==> c.units >= 1
  }

  predicate HasItem(components: seq<Component>, item: nat) {
    exists c :: c in components && c.item == item
  }

  /** A recipe names a component once (its primary key). */
  ghost predicate DistinctItems(components: seq<Component>) {
    forall i, j :: 0 <= i < j < |components| ==> components[i].item != components[j].item
  }

  // ---------------------------------------------------------------------------------------
  // Which plan
  // ---------------------------------------------------------------------------------------

  /** `None` plays the part of positive infinity. */
  function CapacityBound(components: seq<Component>, avail: Availability, location: nat): Option<nat>
    requires PositiveUnits(components)
  {
    if components == [] then None
    else
      var n := |components| - 1;
      var here := Available(avail, components[n].item, location) / components[n].units;
      match CapacityBound(components[..n], avail, location)
      case None => Some(here)
      case Some(c) => Some(Min(c, here))
  }

  /** Complete ordered units one location can supply on its own. */
  function CapacityAt(components: seq<Component>, avail: Availability, location: nat): nat
    requires PositiveUnits(components)
  {
    match CapacityBound(components, avail, location)
    case None => 0
    case Some(c) => c
  }

  function TotalCapacity(components: seq<Component>, avail: Availability, order: seq<nat>): nat
    requires PositiveUnits(components)
  {
    if order == [] then 0
    else CapacityAt(components, avail, order[0]) + TotalCapacity(components, avail, order[1..])
  }

  function TakesFor(components: seq<Component>, location: nat, orderedUnits: nat): (takes: seq<Take>) {
    seq(|components|, i requires 0 <= i < |components| =>
      Take(Key(components[i].item, location), orderedUnits * components[i].units))
  }

  /** What one location contributes to a plan. */
  function HereTakes(components: seq<Component>, location: nat, take: nat): seq<Take> {
    if take > 0 then TakesFor(components, location, take) else []
  }

  /** The highest-priority location able to supply the whole line. */
  function FirstFit(quantity: int, components: seq<Component>, avail: Availability, order: seq<nat>): Option<nat>
    requires PositiveUnits(components)
  {
    if order == [] then None
    else if CapacityAt(components, avail, order[0]) >= quantity then Some(order[0])
    else FirstFit(quantity, components, avail, order[1..])
  }

  /** The earliest location of greatest capacity, starting from a location already in hand. */
  function BestFrom(components: seq<Component>, avail: Availability, order: seq<nat>,
                    best: Option<nat>, bestCapacity: nat): (r: (Option<nat>, nat))
    requires PositiveUnits(components)
  {
    if order == [] then (best, bestCapacity)
    else
      var c := CapacityAt(components, avail, order[0]);
      if c > bestCapacity then BestFrom(components, avail, order[1..], Some(order[0]), c)
      else BestFrom(components, avail, order[1..], best, bestCapacity)
  }

  function Head(order: seq<nat>): Option<nat> {
    if order == [] then None else Some(order[0])
  }

  function SingleLocationPlanOf(quantity: int, components: seq<Component>, avail: Availability,
                                order: seq<nat>): (plan: Plan)
    requires quantity >= 1 && PositiveUnits(components)
  {
    match FirstFit(quantity, components, avail, order)
    case Some(location) => Plan(quantity, 0, false, TakesFor(components, location, quantity))
    case None =>
      var (best, capacity) := BestFrom(components, avail, order, Head(order), 0);
      Plan(capacity, quantity - capacity,
           TotalCapacity(components, avail, order) >= quantity && capacity < quantity,
           if best.None? || capacity == 0 then [] else TakesFor(components, best.value, capacity))
  }

  function SplitTakes(components: seq<Component>, avail: Availability, order: seq<nat>, remaining: nat): seq<Take>
    requires PositiveUnits(components)
  {
    if order == [] || remaining == 0 then []
    else
      var take := Min(remaining, CapacityAt(components, avail, order[0]));
      HereTakes(components, order[0], take) + SplitTakes(components, avail, order[1..], remaining - take)
  }

  function SplitRemaining(components: seq<Component>, avail: Availability, order: seq<nat>, remaining: nat): nat
    requires PositiveUnits(components)
  {
    if order == [] || remaining == 0 then remaining
    else SplitRemaining(components, avail, order[1..],
                        remaining - Min(remaining, CapacityAt(components, avail, order[0])))
  }

  function SplitPlanOf(quantity: int, components: seq<Component>, avail: Availability,
                       order: seq<nat>): (plan: Plan)
    requires quantity >= 1 && PositiveUnits(components)
  {
    var left := SplitRemaining(components, avail, order, quantity);
    Plan(quantity - left, left, false, SplitTakes(components, avail, order, quantity))
  }

  function PlanOf(quantity: int, components: seq<Component>, avail: Availability, order: seq<nat>,
                  split: bool): (plan: Plan)
    requires quantity >= 1 && PositiveUnits(components)
  {
    if split then SplitPlanOf(quantity, components, avail, order)
    else SingleLocationPlanOf(quantity, components, avail, order)
  }

  /** The plan, or the domain error raised instead of one. */
  function PlanAllocationOf(quantity: int, components: seq<Component>, avail: Availability,
                            order: seq<nat>, split: bool): Result<Plan>
  {
    if quantity < 1 then Err("quantity must be a whole number of one or more")
    else if components == [] then Err("an allocation needs at least one component")
    else if !PositiveUnits(components) then Err("unitsPerOrderedUnit must be a whole number of one or more")
    else Ok(PlanOf(quantity, components, avail, order, split))
  }

  // ---------------------------------------------------------------------------------------
  // How it is computed
  // ---------------------------------------------------------------------------------------

  method PlanAllocation(quantity: int, components: seq<Component>, avail: Availability,
                        order: seq<nat>, split: bool) returns (r: Result<Plan>)
    ensures r == PlanAllocationOf(quantity, components, avail, order, split)
  {
    if quantity < 1 {
      return Err("quantity must be a whole number of one or more");
    }
    if components == [] {
      return Err("an allocation needs at least one component");
    }
    for i := 0 to |components|
      invariant PositiveUnits(components[..i])
    {
      if components[i].units < 1 {
        return Err("unitsPerOrderedUnit must be a whole number of one or more");
      }
    }
    assert components[..|components|] == components;

    var capacities: map<nat, nat> := map[];
    for i := 0 to |order|
      invariant forall l :: l in order[..i] ==> l in capacities && capacities[l] == CapacityAt(components, avail, l)
    {
      var c := ComputeCapacity(components, avail, order[i]);
      capacities := capacities[order[i] := c];
    }
    assert order[..|order|] == order;

    var plan;
    if split {
      plan := SplitPlan(quantity, components, avail, order, capacities);
    } else {
      plan := SingleLocationPlan(quantity, components, avail, order, capacities);
    }
    return Ok(plan);
  }

  method ComputeCapacity(components: seq<Component>, avail: Availability, location: nat) returns (c: nat)
    requires PositiveUnits(components)
    ensures c == CapacityAt(components, avail, location)
  {
    var capacity: Option<nat> := None;
    for i := 0 to |components|
      invariant capacity == CapacityBound(components[..i], avail, location)
    {
      var here := Available(avail, components[i].item, location) / components[i].units;
      assert components[..i + 1][..i] == components[..i];
      capacity := if capacity.None? then Some(here) else Some(Min(capacity.value, here));
    }
    assert components[..|components|] == components;
    c := if capacity.None? then 0 else capacity.value;
  }

  method SingleLocationPlan(quantity: int, components: seq<Component>, avail: Availability,
                            order: seq<nat>, capacities: map<nat, nat>) returns (plan: Plan)
    requires quantity >= 1 && PositiveUnits(components)
    requires forall l :: l in order ==> l in capacities && capacities[l] == CapacityAt(components, avail, l)
    ensures plan == SingleLocationPlanOf(quantity, components, avail, order)
  {
    for i := 0 to |order|
      invariant FirstFit(quantity, components, avail, order) == FirstFit(quantity, components, avail, order[i..])
    {
      if capacities[order[i]] >= quantity {
        return Plan(quantity, 0, false, TakesFor(components, order[i], quantity));
      }
    }

    var best, bestCapacity, total := Head(order), 0, 0;
    for i := 0 to |order|
      invariant total + TotalCapacity(components, avail, order[i..]) == TotalCapacity(components, avail, order)
      invariant BestFrom(components, avail, order[i..], best, bestCapacity)
             == BestFrom(components, avail, order, Head(order), 0)
    {
      var capacity := capacities[order[i]];
      total := total + capacity;
      if capacity > bestCapacity {
        best, bestCapacity := Some(order[i]), capacity;
      }
    }
    plan := Plan(bestCapacity, quantity - bestCapacity, total >= quantity && bestCapacity < quantity,
                 if best.None? || bestCapacity == 0 then [] else TakesFor(components, best.value, bestCapacity));
  }

  /** The first `i` locations have given `takes` and left `remaining`. */
  ghost predicate SplitSoFar(components: seq<Component>, avail: Availability, order: seq<nat>, quantity: nat,
                             i: nat, takes: seq<Take>, remaining: nat)
    requires PositiveUnits(components) && i <= |order|
  {
    && SplitRemaining(components, avail, order[i..], remaining) == SplitRemaining(components, avail, order, quantity)
    && takes + SplitTakes(components, avail, order[i..], remaining) == SplitTakes(components, avail, order, quantity)
  }

  lemma SplitAdvance(components: seq<Component>, avail: Availability, order: seq<nat>, quantity: nat,
                     i: nat, takes: seq<Take>, remaining: nat)
    requires PositiveUnits(components) && i < |order| && remaining != 0
    requires SplitSoFar(components, avail, order, quantity, i, takes, remaining)
    ensures var take := Min(remaining, CapacityAt(components, avail, order[i]));
            && (take > 0 ==> SplitSoFar(components, avail, order, quantity, i + 1, takes + TakesFor(components, order[i], take), remaining - take))
            && (take == 0 ==> SplitSoFar(components, avail, order, quantity, i + 1, takes, remaining))
  {
    var take := Min(remaining, CapacityAt(components, avail, order[i]));
    var here, rest := HereTakes(components, order[i], take), SplitTakes(components, avail, order[i + 1..], remaining - take);
    assert order[i..][1..] == order[i + 1..];
    assert takes + (here + rest) == (takes + here) + rest;
    assert takes + [] == takes;
  }

  method FillInOrder(quantity: nat, components: seq<Component>, avail: Availability,
                     order: seq<nat>, capacities: map<nat, nat>) returns (takes: seq<Take>, remaining: nat)
    requires PositiveUnits(components)
    requires forall l :: l in order ==> l in capacities && capacities[l] == CapacityAt(components, avail, l)
    ensures takes == SplitTakes(components, avail, order, quantity)
    ensures remaining == SplitRemaining(components, avail, order, quantity)
  {
    takes, remaining := [], quantity;
    var i := 0;
    assert order[0..] == order;
    while i < |order| && remaining != 0
      invariant 0 <= i <= |order|
      invariant SplitSoFar(components, avail, order, quantity, i, takes, remaining)
    {
      var take := Min(remaining, capacities[order[i]]);
      SplitAdvance(components, avail, order, quantity, i, takes, remaining);
      if take > 0 {
        takes := takes + TakesFor(components, order[i], take);
        remaining := remaining - take;
      }
      i := i + 1;
    }
    SplitDone(components, avail, order, quantity, i, takes, remaining);
  }

  lemma SplitDone(components: seq<Component>, avail: Availability, order: seq<nat>, quantity: nat,
                  i: nat, takes: seq<Take>, remaining: nat)
    requires PositiveUnits(components) && i <= |order| && (i == |order| || remaining == 0)
    requires SplitSoFar(components, avail, order, quantity, i, takes, remaining)
    ensures takes == SplitTakes(components, avail, order, quantity)
    ensures remaining == SplitRemaining(components, avail, order, quantity)
  {
    assert takes + [] == takes;
  }

  method SplitPlan(quantity: int, components: seq<Component>, avail: Availability,
                   order: seq<nat>, capacities: map<nat, nat>) returns (plan: Plan)
    requires quantity >= 1 && PositiveUnits(components)
    requires forall l :: l in order ==> l in capacities && capacities[l] == CapacityAt(components, avail, l)
    ensures plan == SplitPlanOf(quantity, components, avail, order)
  {
    var takes, remaining := FillInOrder(quantity, components, avail, order, capacities);
    plan := Plan(quantity - remaining, remaining, false, takes);
  }

  // ---------------------------------------------------------------------------------------
  // Capacity has an independent meaning
  // ---------------------------------------------------------------------------------------

  lemma FloorDivision(n: nat, a: nat, u: int)
    requires u >= 1
    ensures n <= a / u <==> n * u <= a
  {
    assert a == a / u * u + a % u;
    if n <= a / u {
      MulMonotone(n, a / u, u);
    } else {
      MulMonotone(a / u + 1, n, u);
    }
  }

  lemma MulMonotone(x: int, y: int, u: int)
    requires x <= y && u >= 0
    ensures x * u <= y * u
  {
    assert (y - x) * u >= 0;
  }

  /** `n` ordered units can all be supplied from one location. */
  ghost predicate CanSupply(components: seq<Component>, avail: Availability, location: nat, n: nat) {
    forall c :: c in components ==> n * c.units <= Available(avail, c.item, location)
  }

  /** Capacity is the greatest number of ordered units the location can supply. */
  lemma {:induction false} CapacityIsGreatest(components: seq<Component>, avail: Availability, location: nat, n: nat)
    requires components != [] && PositiveUnits(components)
    ensures n <= CapacityAt(components, avail, location) <==> CanSupply(components, avail, location, n)
  {
    var last := |components| - 1;
    var c := components[last];
    FloorDivision(n, Available(avail, c.item, location), c.units);
    assert forall d :: d in components <==> d in components[..last] || d == c;
    if last > 0 {
      CapacityIsGreatest(components[..last], avail, location, n);
      assert CapacityBound(components[..last], avail, location).Some?;
    } else {
      assert components == [c];
      assert CapacityBound(components[..last], avail, location).None?;
    }
  }

  // ---------------------------------------------------------------------------------------
  // Optimality
  // ---------------------------------------------------------------------------------------

  function Sum(n: seq<nat>): nat {
    if n == [] then 0 else n[0] + Sum(n[1..])
  }

  /** An assignment of whole ordered units to locations that no location would have to overdraw for. */
  ghost predicate Feasible(components: seq<Component>, avail: Availability, order: seq<nat>, n: seq<nat>) {
    |n| == |order| && forall i :: 0 <= i < |order| ==> CanSupply(components, avail, order[i], n[i])
  }

  lemma {:induction false} FeasibleIsBounded(components: seq<Component>, avail: Availability, order: seq<nat>, n: seq<nat>)
    requires components != [] && PositiveUnits(components)
    requires Feasible(components, avail, order, n)
    ensures Sum(n) <= TotalCapacity(components, avail, order)
  {
    if order != [] {
      CapacityIsGreatest(components, avail, order[0], n[0]);
      FeasibleIsBounded(components, avail, order[1..], n[1..]);
    }
  }

  lemma {:induction false} SplitRemainingIs(components: seq<Component>, avail: Availability, order: seq<nat>, remaining: nat)
    requires PositiveUnits(components)
    ensures SplitRemaining(components, avail, order, remaining)
         == remaining - Min(remaining, TotalCapacity(components, avail, order))
  {
    if order != [] && remaining != 0 {
      SplitRemainingIs(components, avail, order[1..],
                       remaining - Min(remaining, CapacityAt(components, avail, order[0])));
    }
  }

  /** Splitting supplies exactly min(quantity, total capacity), and no assignment of whole units
      to locations that respects availability supplies more of the line. */
  lemma SplitIsOptimal(quantity: int, components: seq<Component>, avail: Availability, order: seq<nat>, n: seq<nat>)
    requires quantity >= 1 && components != [] && PositiveUnits(components)
    requires Feasible(components, avail, order, n)
    ensures var plan := PlanOf(quantity, components, avail, order, true);
            && plan.supplied == Min(quantity, TotalCapacity(components, avail, order))
            && plan.supplied >= Min(quantity, Sum(n))
  {
    SplitRemainingIs(components, avail, order, quantity);
    FeasibleIsBounded(components, avail, order, n);
  }

  /** The bound is attained: the capacities themselves are a feasible assignment. */
  lemma {:induction false} CapacitiesAreFeasible(components: seq<Component>, avail: Availability, order: seq<nat>)
    returns (n: seq<nat>)
    requires components != [] && PositiveUnits(components)
    ensures Feasible(components, avail, order, n)
    ensures Sum(n) == TotalCapacity(components, avail, order)
  {
    if order == [] {
      n := [];
    } else {
      var rest := CapacitiesAreFeasible(components, avail, order[1..]);
      CapacityIsGreatest(components, avail, order[0], CapacityAt(components, avail, order[0]));
      n := [CapacityAt(components, avail, order[0])] + rest;
    }
  }

  lemma {:induction false} FirstFitIs(quantity: int, components: seq<Component>, avail: Availability, order: seq<nat>)
    requires PositiveUnits(components)
    ensures var fit := FirstFit(quantity, components, avail, order);
            match fit
            case None => forall l :: l in order ==> CapacityAt(components, avail, l) < quantity
            case Some(l) => exists i :: 0 <= i < |order| && order[i] == l
                                     && CapacityAt(components, avail, l) >= quantity
                                     && forall j :: 0 <= j < i ==> CapacityAt(components, avail, order[j]) < quantity
  {
    if order == [] {
    } else if CapacityAt(components, avail, order[0]) >= quantity {
      assert order[0] == FirstFit(quantity, components, avail, order).value;
    } else {
      FirstFitIs(quantity, components, avail, order[1..]);
      match FirstFit(quantity, components, avail, order[1..])
      case None =>
        assert forall l :: l in order <==> l == order[0] || l in order[1..];
      case Some(l) =>
        var i :| 0 <= i < |order[1..]| && order[1..][i] == l
                 && forall j :: 0 <= j < i ==> CapacityAt(components, avail, order[1..][j]) < quantity;
        assert order[i + 1] == l;
        forall j | 0 <= j < i + 1 ensures CapacityAt(components, avail, order[j]) < quantity {
          if j > 0 {
            assert order[j] == order[1..][j - 1];
          }
        }
    }
  }

  /** The best of the rest, seen from the whole order. */
  lemma BestLater(components: seq<Component>, avail: Availability, order: seq<nat>, best: Option<nat>, bestCapacity: nat)
    requires PositiveUnits(components) && order != [] && CapacityAt(components, avail, order[0]) <= bestCapacity
    ensures var (b, c) := BestFrom(components, avail, order[1..], best, bestCapacity);
            (b.Some? && c > bestCapacity
             && exists i :: 0 <= i < |order[1..]| && order[1..][i] == b.value && CapacityAt(components, avail, order[1..][i]) == c
                         && forall j :: 0 <= j < i ==> CapacityAt(components, avail, order[1..][j]) < c) ==>
            exists i :: 0 <= i < |order| && order[i] == b.value && CapacityAt(components, avail, order[i]) == c
                     && forall j :: 0 <= j < i ==> CapacityAt(components, avail, order[j]) < c
  {
    var (b, c) := BestFrom(components, avail, order[1..], best, bestCapacity);
    if b.Some? && c > bestCapacity {
      if i :| 0 <= i < |order[1..]| && order[1..][i] == b.value && CapacityAt(components, avail, order[1..][i]) == c
              && forall j :: 0 <= j < i ==> CapacityAt(components, avail, order[1..][j]) < c {
        assert order[i + 1] == b.value;
        forall j | 0 <= j < i + 1 ensures CapacityAt(components, avail, order[j]) < c {
          if j > 0 {
            assert order[j] == order[1..][j - 1];
          }
        }
      }
    }
  }

  lemma {:induction false} BestIs(components: seq<Component>, avail: Availability, order: seq<nat>,
                                  best: Option<nat>, bestCapacity: nat)
    requires PositiveUnits(components)
    ensures var (b, c) := BestFrom(components, avail, order, best, bestCapacity);
            && c >= bestCapacity
            && (forall l :: l in order ==> CapacityAt(components, avail, l) <= c)
            && ((b == best && c == bestCapacity)
                || (b.Some? && c > bestCapacity
                    && exists i :: 0 <= i < |order| && order[i] == b.value && CapacityAt(components, avail, order[i]) == c
                                && forall j :: 0 <= j < i ==> CapacityAt(components, avail, order[j]) < c))
  {
    if order != [] {
      var here := CapacityAt(components, avail, order[0]);
      assert forall l :: l in order <==> l == order[0] || l in order[1..];
      if here > bestCapacity {
        BestIs(components, avail, order[1..], Some(order[0]), here);
        BestLater(components, avail, order, Some(order[0]), here);
      } else {
        BestIs(components, avail, order[1..], best, bestCapacity);
        BestLater(components, avail, order, best, bestCapacity);
      }
    }
  }

  /** Where the whole of a single-location plan comes from. */
  lemma SinglePlanSource(quantity: int, components: seq<Component>, avail: Availability, order: seq<nat>)
    returns (i: nat)
    requires quantity >= 1 && PositiveUnits(components)
    ensures var plan := PlanOf(quantity, components, avail, order, false);
            && 0 <= plan.supplied <= quantity
            && (forall l :: l in order ==> plan.supplied >= Min(quantity, CapacityAt(components, avail, l)))
            && (plan.supplied == 0 ==> plan.takes == [])
            && (plan.supplied > 0 ==>
                  && i < |order| && plan.takes == TakesFor(components, order[i], plan.supplied)
                  && plan.supplied <= CapacityAt(components, avail, order[i])
                  && forall j :: 0 <= j < i ==> CapacityAt(components, avail, order[j]) < plan.supplied)
  {
    FirstFitIs(quantity, components, avail, order);
    BestIs(components, avail, order, Head(order), 0);
    i := 0;
    match FirstFit(quantity, components, avail, order)
    case Some(l) =>
      i :| 0 <= i < |order| && order[i] == l && CapacityAt(components, avail, l) >= quantity
           && forall j :: 0 <= j < i ==> CapacityAt(components, avail, order[j]) < quantity;
    case None =>
      var (b, c) := BestFrom(components, avail, order, Head(order), 0);
      if c > 0 {
        i :| 0 <= i < |order| && order[i] == b.value && CapacityAt(components, avail, order[i]) == c
             && forall j :: 0 <= j < i ==> CapacityAt(components, avail, order[j]) < c;
      }
  }

  /** Without splitting, the whole plan comes from one location, no other location alone could
      supply more of the line, and none of higher priority as much. */
  lemma SingleIsOptimal(quantity: int, components: seq<Component>, avail: Availability, order: seq<nat>)
    requires quantity >= 1 && components != [] && PositiveUnits(components)
    ensures var plan := PlanOf(quantity, components, avail, order, false);
            && 0 <= plan.supplied <= quantity
            && (forall l, n: nat :: l in order && CanSupply(components, avail, l, n) ==> plan.supplied >= Min(quantity, n))
            && (plan.supplied > 0 ==>
                  exists i :: 0 <= i < |order| && plan.takes == TakesFor(components, order[i], plan.supplied)
                           && CanSupply(components, avail, order[i], plan.supplied)
                           && forall j :: 0 <= j < i ==> !CanSupply(components, avail, order[j], plan.supplied))
            && (plan.supplied == 0 ==> plan.takes == [])
  {
    var i := SinglePlanSource(quantity, components, avail, order);
    forall l, n: nat ensures n <= CapacityAt(components, avail, l) <==> CanSupply(components, avail, l, n) {
      CapacityIsGreatest(components, avail, l, n);
    }
  }

  /** A line is reported as blocked exactly when one location leaves a shortage that splitting
      would not have left. */
  lemma SplitBlockedExactly(quantity: int, components: seq<Component>, avail: Availability, order: seq<nat>)
    requires quantity >= 1 && PositiveUnits(components)
    ensures var single := PlanOf(quantity, components, avail, order, false);
            var split := PlanOf(quantity, components, avail, order, true);
            && (single.splitBlocked <==> single.shortage > 0 && split.shortage == 0)
            && !split.splitBlocked
  {
    SplitRemainingIs(components, avail, order, quantity);
  }

  /** Whatever is ordered is either allocated or written down as a shortage. */
  lemma AllocatedPlusShortage(quantity: int, components: seq<Component>, avail: Availability, order: seq<nat>, split: bool)
    requires quantity >= 1 && PositiveUnits(components)
    ensures var plan := PlanOf(quantity, components, avail, order, split);
            && plan.supplied + plan.shortage == quantity
            && 0 <= plan.shortage <= quantity
  {
    SplitRemainingIs(components, avail, order, quantity);
    FirstFitIs(quantity, components, avail, order);
    BestIs(components, avail, order, Head(order), 0);
  }

  // ---------------------------------------------------------------------------------------
  // What the takes amount to
  // ---------------------------------------------------------------------------------------

  /** Units taken at one key. */
  function QtyAt(takes: seq<Take>, k: Key): int {
    if takes == [] then 0
    else
      var n := |takes| - 1;
      QtyAt(takes[..n], k) + (if takes[n].key == k then takes[n].quantity else 0)
  }

  /** Units taken of one item, wherever they come from. */
  function ItemTotal(takes: seq<Take>, item: nat): int {
    if takes == [] then 0
    else
      var n := |takes| - 1;
      ItemTotal(takes[..n], item) + (if takes[n].key.item == item then takes[n].quantity else 0)
  }

  /** Units of one item that an ordered unit consumes. */
  function UnitsOf(components: seq<Component>, item: nat): int {
    if components == [] then 0
    else
      var n := |components| - 1;
      UnitsOf(components[..n], item) + (if components[n].item == item then components[n].units else 0)
  }

  lemma {:induction false} QtyAppend(a: seq<Take>, b: seq<Take>, k: Key)
    ensures QtyAt(a + b, k) == QtyAt(a, k) + QtyAt(b, k)
    ensures ItemTotal(a + b, k.item) == ItemTotal(a, k.item) + ItemTotal(b, k.item)
  {
    if b == [] {
      assert a + b == a;
    } else {
      var n := |b| - 1;
      QtyAppend(a, b[..n], k);
      assert (a + b)[..|a + b| - 1] == a + b[..n];
    }
  }

  lemma {:induction false} TakesForAmount(components: seq<Component>, location: nat, n: nat, k: Key)
    ensures QtyAt(TakesFor(components, location, n), k)
         == if k.location == location then n * UnitsOf(components, k.item) else 0
    ensures ItemTotal(TakesFor(components, location, n), k.item) == n * UnitsOf(components, k.item)
  {
    if components != [] {
      var last := |components| - 1;
      TakesForAmount(components[..last], location, n, k);
      assert TakesFor(components, location, n)[..last] == TakesFor(components[..last], location, n);
    }
  }

  lemma {:induction false} UnitsOfDistinct(components: seq<Component>, item: nat)
    requires DistinctItems(components)
    ensures forall c :: c in components && c.item == item ==> UnitsOf(components, item) == c.units
    ensures (forall c :: c in components ==> c.item != item) ==> UnitsOf(components, item) == 0
  {
    if components != [] {
      var last := |components| - 1;
      UnitsOfDistinct(components[..last], item);
      assert forall c :: c in components <==> c in components[..last] || c == components[last];
    }
  }

  /** Taking what one location can supply never exceeds what it has of any component. */
  lemma SuppliedWithinAvailable(components: seq<Component>, avail: Availability, location: nat, n: nat, item: nat)
    requires components != [] && PositiveUnits(components) && DistinctItems(components)
    requires n <= CapacityAt(components, avail, location)
    ensures 0 <= n * UnitsOf(components, item) <= Available(avail, item, location)
  {
    CapacityIsGreatest(components, avail, location, n);
    UnitsOfDistinct(components, item);
    if c :| c in components && c.item == item {
      assert UnitsOf(components, item) == c.units;
      MulMonotone(0, n, c.units);
    }
  }

  lemma HereAmount(components: seq<Component>, avail: Availability, location: nat, take: nat, k: Key)
    requires components != [] && PositiveUnits(components) && DistinctItems(components)
    requires take <= CapacityAt(components, avail, location)
    ensures 0 <= QtyAt(HereTakes(components, location, take), k)
              <= if k.location == location then Available(avail, k.item, k.location) else 0
  {
    TakesForAmount(components, location, take, k);
    SuppliedWithinAvailable(components, avail, location, take, k.item);
  }

  /** A location is drawn on once, and never beyond what it has. */
  ghost predicate Covered(taken: int, avail: Availability, order: seq<nat>, k: Key) {
    0 <= taken <= if k.location in order then Available(avail, k.item, k.location) else 0
  }

  lemma {:induction false} SplitTakesAmount(components: seq<Component>, avail: Availability, order: seq<nat>, remaining: nat, k: Key)
    requires components != [] && PositiveUnits(components) && DistinctItems(components) && Distinct(order)
    ensures Covered(QtyAt(SplitTakes(components, avail, order, remaining), k), avail, order, k)
  {
    if order != [] && remaining != 0 {
      var take := Min(remaining, CapacityAt(components, avail, order[0]));
      SplitTakesAmount(components, avail, order[1..], remaining - take, k);
      SplitAmountStep(components, avail, order, remaining, take, k);
    } else {
      assert SplitTakes(components, avail, order, remaining) == [];
    }
  }

  lemma SplitAmountStep(components: seq<Component>, avail: Availability, order: seq<nat>, remaining: nat, take: nat, k: Key)
    requires components != [] && PositiveUnits(components) && DistinctItems(components) && Distinct(order)
    requires order != [] && remaining != 0 && take == Min(remaining, CapacityAt(components, avail, order[0]))
    requires Covered(QtyAt(SplitTakes(components, avail, order[1..], remaining - take), k), avail, order[1..], k)
    ensures Covered(QtyAt(SplitTakes(components, avail, order, remaining), k), avail, order, k)
  {
    var here, rest := SplitParts(components, avail, order, remaining, take, k);
    FirstIsElsewhere(order, k.location);
    HereOrLater(here + rest, here, rest, Available(avail, k.item, k.location), k.location == order[0], k.location in order[1..]);
  }

  /** What the first location and the rest of a plan give of one key. */
  lemma SplitParts(components: seq<Component>, avail: Availability, order: seq<nat>, remaining: nat, take: nat, k: Key)
    returns (here: int, rest: int)
    requires components != [] && PositiveUnits(components) && DistinctItems(components)
    requires order != [] && remaining != 0 && take == Min(remaining, CapacityAt(components, avail, order[0]))
    ensures QtyAt(SplitTakes(components, avail, order, remaining), k) == here + rest
    ensures rest == QtyAt(SplitTakes(components, avail, order[1..], remaining - take), k)
    ensures 0 <= here <= if k.location == order[0] then Available(avail, k.item, k.location) else 0
  {
    var first, others := HereTakes(components, order[0], take), SplitTakes(components, avail, order[1..], remaining - take);
    here, rest := QtyAt(first, k), QtyAt(others, k);
    HereAmount(components, avail, order[0], take, k);
    Joined(SplitTakes(components, avail, order, remaining), first, others, k);
  }

  /** What they give of one item, wherever it is. */
  lemma SplitTotals(components: seq<Component>, avail: Availability, order: seq<nat>, remaining: nat, take: nat, item: nat)
    returns (here: int, rest: int)
    requires PositiveUnits(components) && order != [] && remaining != 0
    requires take == Min(remaining, CapacityAt(components, avail, order[0]))
    ensures ItemTotal(SplitTakes(components, avail, order, remaining), item) == here + rest
    ensures rest == ItemTotal(SplitTakes(components, avail, order[1..], remaining - take), item)
    ensures here == take * UnitsOf(components, item)
  {
    var first, others := HereTakes(components, order[0], take), SplitTakes(components, avail, order[1..], remaining - take);
    here, rest := ItemTotal(first, item), ItemTotal(others, item);
    HereTotal(components, order[0], take, item);
    Joined(SplitTakes(components, avail, order, remaining), first, others, Key(item, order[0]));
  }

  lemma Joined(all: seq<Take>, first: seq<Take>, others: seq<Take>, k: Key)
    requires all == first + others
    ensures QtyAt(all, k) == QtyAt(first, k) + QtyAt(others, k)
    ensures ItemTotal(all, k.item) == ItemTotal(first, k.item) + ItemTotal(others, k.item)
  {
    QtyAppend(first, others, k);
  }

  /** Either the first location gives some of a key, or a later one does. */
  lemma HereOrLater(total: int, here: int, rest: int, available: nat, isFirst: bool, isLater: bool)
    requires total == here + rest && here >= 0 && 0 <= rest <= (if isLater then available else 0)
    requires here <= (if isFirst then available else 0)
    requires !(isFirst && isLater)
    ensures 0 <= total <= if isFirst || isLater then available else 0
  {
  }

  lemma FirstIsElsewhere(order: seq<nat>, location: nat)
    requires Distinct(order) && order != []
    ensures location in order <==> location == order[0] || location in order[1..]
    ensures order[0] !in order[1..] && Distinct(order[1..])
  {
  }

  /** Ordered units a split plan supplies. */
  function SplitGiven(components: seq<Component>, avail: Availability, order: seq<nat>, remaining: nat): nat
    requires PositiveUnits(components)
  {
    if order == [] || remaining == 0 then 0
    else
      var take := Min(remaining, CapacityAt(components, avail, order[0]));
      take + SplitGiven(components, avail, order[1..], remaining - take)
  }

  lemma {:induction false} SplitGivenIs(components: seq<Component>, avail: Availability, order: seq<nat>, remaining: nat)
    requires PositiveUnits(components)
    ensures SplitGiven(components, avail, order, remaining) == remaining - SplitRemaining(components, avail, order, remaining)
  {
    if order != [] && remaining != 0 {
      SplitGivenIs(components, avail, order[1..], remaining - Min(remaining, CapacityAt(components, avail, order[0])));
    }
  }

  lemma {:induction false} SplitTakesTotal(components: seq<Component>, avail: Availability, order: seq<nat>, remaining: nat, item: nat)
    requires PositiveUnits(components)
    ensures ItemTotal(SplitTakes(components, avail, order, remaining), item)
         == SplitGiven(components, avail, order, remaining) * UnitsOf(components, item)
  {
    if order != [] && remaining != 0 {
      var take := Min(remaining, CapacityAt(components, avail, order[0]));
      SplitTakesTotal(components, avail, order[1..], remaining - take, item);
      SplitTotalStep(components, avail, order, remaining, take, item, SplitGiven(components, avail, order[1..], remaining - take));
    }
  }

  lemma SplitTotalStep(components: seq<Component>, avail: Availability, order: seq<nat>, remaining: nat,
                       take: nat, item: nat, later: nat)
    requires PositiveUnits(components) && order != [] && remaining != 0
    requires take == Min(remaining, CapacityAt(components, avail, order[0]))
    requires ItemTotal(SplitTakes(components, avail, order[1..], remaining - take), item) == later * UnitsOf(components, item)
    ensures ItemTotal(SplitTakes(components, avail, order, remaining), item) == (take + later) * UnitsOf(components, item)
  {
    var here, rest := SplitTotals(components, avail, order, remaining, take, item);
    Distribute(take, later, UnitsOf(components, item), here, rest);
  }

  lemma HereTotal(components: seq<Component>, location: nat, take: nat, item: nat)
    ensures ItemTotal(HereTakes(components, location, take), item) == take * UnitsOf(components, item)
  {
    TakesForAmount(components, location, take, Key(item, location));
  }

  lemma Distribute(a: int, b: int, u: int, x: int, y: int)
    requires x == a * u && y == b * u
    ensures x + y == (a + b) * u
  {
  }

  /** No plan takes more than is available at any key. */
  lemma TakesWithinAvailability(quantity: int, components: seq<Component>, avail: Availability, order: seq<nat>, split: bool, k: Key)
    requires quantity >= 1 && components != [] && PositiveUnits(components)
    requires DistinctItems(components) && Distinct(order)
    ensures 0 <= QtyAt(PlanOf(quantity, components, avail, order, split).takes, k) <= Available(avail, k.item, k.location)
  {
    if split {
      SplitTakesAmount(components, avail, order, quantity, k);
    } else {
      var plan := PlanOf(quantity, components, avail, order, false);
      var i := SinglePlanSource(quantity, components, avail, order);
      if plan.supplied > 0 {
        TakesForAmount(components, order[i], plan.supplied, k);
        SuppliedWithinAvailable(components, avail, order[i], plan.supplied, k.item);
      }
    }
  }

  /** Every component is taken in the recipe's proportion to what was allocated. */
  lemma TakesMatchAllocated(quantity: int, components: seq<Component>, avail: Availability, order: seq<nat>, split: bool, item: nat)
    requires quantity >= 1 && components != [] && PositiveUnits(components)
    ensures var plan := PlanOf(quantity, components, avail, order, split);
            ItemTotal(plan.takes, item) == plan.supplied * UnitsOf(components, item)
  {
    if split {
      SplitTakesTotal(components, avail, order, quantity, item);
      SplitGivenIs(components, avail, order, quantity);
    } else {
      SingleTakesTotal(quantity, components, avail, order, item);
    }
  }

  lemma SingleTakesTotal(quantity: int, components: seq<Component>, avail: Availability, order: seq<nat>, item: nat)
    requires quantity >= 1 && components != [] && PositiveUnits(components)
    ensures var plan := PlanOf(quantity, components, avail, order, false);
            ItemTotal(plan.takes, item) == plan.supplied * UnitsOf(components, item)
  {
    var plan := PlanOf(quantity, components, avail, order, false);
    var i := SinglePlanSource(quantity, components, avail, order);
    if plan.supplied > 0 {
      TakesForAmount(components, order[i], plan.supplied, Key(item, order[i]));
    }
  }

  /** Takes are positive, name each key once, and stay among the components and locations given. */
  ghost predicate WellFormedTakes(takes: seq<Take>, components: seq<Component>, order: seq<nat>) {
    && (forall i :: 0 <= i < |takes| ==>
          takes[i].quantity >= 1 && takes[i].key.location in order && HasItem(components, takes[i].key.item))
    && (forall i, j :: 0 <= i < j < |takes| ==> takes[i].key != takes[j].key)
  }

  lemma TakesForWellFormed(components: seq<Component>, order: seq<nat>, location: nat, n: nat)
    requires PositiveUnits(components) && DistinctItems(components) && n >= 1 && location in order
    ensures WellFormedTakes(TakesFor(components, location, n), components, order)
  {
    var takes := TakesFor(components, location, n);
    forall i | 0 <= i < |takes| ensures takes[i].quantity >= 1 && HasItem(components, takes[i].key.item) {
      assert components[i] in components;
      MulMonotone(1, n, components[i].units);
    }
  }

  lemma JoinWellFormed(here: seq<Take>, rest: seq<Take>, components: seq<Component>, order: seq<nat>)
    requires order != [] && Distinct(order)
    requires WellFormedTakes(here, components, [order[0]]) && WellFormedTakes(rest, components, order[1..])
    ensures WellFormedTakes(here + rest, components, order)
  {
    forall i, j | 0 <= i < |here| && 0 <= j < |rest| ensures here[i].key != rest[j].key {
      assert here[i].key.location == order[0] && rest[j].key.location in order[1..];
    }
  }

  lemma {:induction false} SplitTakesWellFormed(components: seq<Component>, avail: Availability, order: seq<nat>, remaining: nat)
    requires PositiveUnits(components) && DistinctItems(components) && Distinct(order)
    ensures WellFormedTakes(SplitTakes(components, avail, order, remaining), components, order)
  {
    if order != [] && remaining != 0 {
      var take := Min(remaining, CapacityAt(components, avail, order[0]));
      SplitTakesWellFormed(components, avail, order[1..], remaining - take);
      if take > 0 {
        TakesForWellFormed(components, [order[0]], order[0], take);
      }
      JoinWellFormed(HereTakes(components, order[0], take),
                     SplitTakes(components, avail, order[1..], remaining - take), components, order);
    }
  }

  lemma PlanTakesWellFormed(quantity: int, components: seq<Component>, avail: Availability, order: seq<nat>, split: bool)
    requires quantity >= 1 && components != [] && PositiveUnits(components)
    requires DistinctItems(components) && Distinct(order)
    ensures WellFormedTakes(PlanOf(quantity, components, avail, order, split).takes, components, order)
  {
    if split {
      SplitTakesWellFormed(components, avail, order, quantity);
    } else {
      var plan := PlanOf(quantity, components, avail, order, false);
      var i := SinglePlanSource(quantity, components, avail, order);
      if plan.supplied > 0 {
        TakesForWellFormed(components, order, order[i], plan.supplied);
      }
    }
  }

  // ---------------------------------------------------------------------------------------
  // Priority
  // ---------------------------------------------------------------------------------------

  /** The plan takes something at the location. */
  ghost predicate DrawsOn(takes: seq<Take>, location: nat) {
    exists take :: take in takes && take.key.location == location
  }

  lemma DrawnThere(components: seq<Component>, avail: Availability, order: seq<nat>, remaining: nat, take: nat, location: nat)
    requires PositiveUnits(components) && order != [] && remaining != 0 && location != order[0]
    requires take == Min(remaining, CapacityAt(components, avail, order[0]))
    requires DrawsOn(SplitTakes(components, avail, order, remaining), location)
    ensures DrawsOn(SplitTakes(components, avail, order[1..], remaining - take), location)
  {
    var first, others := HereTakes(components, order[0], take), SplitTakes(components, avail, order[1..], remaining - take);
    var t :| t in SplitTakes(components, avail, order, remaining) && t.key.location == location;
    assert SplitTakes(components, avail, order, remaining) == first + others;
    assert t in others;
  }

  /** A location is only drawn on when those before it cannot supply what is wanted. */
  lemma {:induction false} DrawnOnInTurn(components: seq<Component>, avail: Availability, order: seq<nat>, remaining: nat, j: nat)
    requires PositiveUnits(components) && Distinct(order) && j < |order|
    requires DrawsOn(SplitTakes(components, avail, order, remaining), order[j])
    ensures TotalCapacity(components, avail, order[..j]) < remaining
  {
    if j > 0 {
      var take := Min(remaining, CapacityAt(components, avail, order[0]));
      DrawnThere(components, avail, order, remaining, take, order[j]);
      DrawnOnInTurn(components, avail, order[1..], remaining - take, j - 1);
      assert order[..j][1..] == order[1..][..j - 1];
    }
  }

  /** The takes include all that the location can supply, of one component. */
  ghost predicate GivesAll(components: seq<Component>, avail: Availability, takes: seq<Take>, location: nat, c: Component)
    requires PositiveUnits(components)
  {
    QtyAt(takes, Key(c.item, location)) == CapacityAt(components, avail, location) * c.units
  }

  lemma HereGives(components: seq<Component>, location: nat, take: nat, c: Component)
    requires DistinctItems(components) && c in components
    ensures QtyAt(HereTakes(components, location, take), Key(c.item, location)) == take * c.units
  {
    TakesForAmount(components, location, take, Key(c.item, location));
    UnitsOfDistinct(components, c.item);
  }

  /** The first location, when it gives what it can. */
  lemma FirstGivesAll(components: seq<Component>, avail: Availability, order: seq<nat>, remaining: nat, take: nat, c: Component)
    requires components != [] && PositiveUnits(components) && DistinctItems(components) && Distinct(order) && c in components
    requires order != [] && remaining != 0 && take == CapacityAt(components, avail, order[0]) <= remaining
    ensures GivesAll(components, avail, SplitTakes(components, avail, order, remaining), order[0], c)
  {
    var k := Key(c.item, order[0]);
    var first, others := HereTakes(components, order[0], take), SplitTakes(components, avail, order[1..], remaining - take);
    Joined(SplitTakes(components, avail, order, remaining), first, others, k);
    FirstIsElsewhere(order, order[0]);
    SplitTakesAmount(components, avail, order[1..], remaining - take, k);
    HereGives(components, order[0], take, c);
  }

  /** What a later location gives is what it gives in the rest of the plan. */
  lemma LaterGives(components: seq<Component>, avail: Availability, order: seq<nat>, remaining: nat, take: nat, location: nat, c: Component)
    requires components != [] && PositiveUnits(components) && DistinctItems(components)
    requires order != [] && remaining != 0 && take == Min(remaining, CapacityAt(components, avail, order[0]))
    requires location != order[0] && GivesAll(components, avail, SplitTakes(components, avail, order[1..], remaining - take), location, c)
    ensures GivesAll(components, avail, SplitTakes(components, avail, order, remaining), location, c)
  {
    var here, rest := SplitParts(components, avail, order, remaining, take, Key(c.item, location));
  }

  /** Whenever a split plan draws on a location, every location of higher priority has given all it can
      supply, of every component. */
  lemma {:induction false} EarlierGiveAll(components: seq<Component>, avail: Availability, order: seq<nat>, remaining: nat,
                                          i: nat, j: nat, c: Component)
    requires components != [] && PositiveUnits(components) && DistinctItems(components) && Distinct(order)
    requires i < j < |order| && c in components
    requires DrawsOn(SplitTakes(components, avail, order, remaining), order[j])
    ensures GivesAll(components, avail, SplitTakes(components, avail, order, remaining), order[i], c)
  {
    DrawnOnInTurn(components, avail, order, remaining, j);
    FirstCapacity(components, avail, order[..j]);
    var take := CapacityAt(components, avail, order[0]);
    if i == 0 {
      FirstGivesAll(components, avail, order, remaining, take, c);
    } else {
      DrawnThere(components, avail, order, remaining, take, order[j]);
      EarlierGiveAll(components, avail, order[1..], remaining - take, i - 1, j - 1, c);
      LaterGives(components, avail, order, remaining, take, order[i], c);
    }
  }

  lemma FirstCapacity(components: seq<Component>, avail: Availability, order: seq<nat>)
    requires PositiveUnits(components) && order != []
    ensures CapacityAt(components, avail, order[0]) <= TotalCapacity(components, avail, order)
  {
  }
}
