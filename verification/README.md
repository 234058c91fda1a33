# Inventory core, job queue and scheduler: a verified model

This project models the parts of a multi-channel inventory service in which stock, work and decisions could
be lost, and proves what every sequence of their operations keeps.

Operations that change stored state are `class` methods over the tables as fields. Each is proved equal to a
step function on a value (`Transition(Value(), reply) == …Step(old(Value()), …)`): the contract fixes the reply
and every table as the method leaves them. Besides, every single write to a balance or a mapping row is shown to
meet the CHECK constraints of its table at the moment it is made, and every new mapping version the unique
index, so the order of two writes is fixed where one of these depends on it and only there. What the system
promises is then proved about the step functions: what each one does, in terms of rows, records and entries
alone (`InventoryEffects`, `QueueEffects`, `MappingEffects`), and what whole runs of them keep. Decisions the
program computes without changing anything are functions, and the loops it uses to compute them are methods
proved against those functions.

| files | what they hold |
|---|---|
| `Stock`, `Ledger`, `Reservations`, `InventoryInvariant`, `InventoryRuns`, `InventoryEffects`, `Equivalence`, `Reversing`, `Inventory` | balances, the append-only ledger, and reservations in both consumption modes |
| `Allocation`, `Availability`, `Projection` | allocation plans, advertised quantities, kits, and the dry run of a change |
| `RowLocks` | many transactions taking balance rows one at a time |
| `Queue`, `QueueRuns`, `QueueEffects`, `QueueRefusals`, `LateSettlement`, `JobTable`, `Retry`, `RetryRuns`, `RetryInQueue` | the durable job queue and its retry schedule |
| `Lease`, `Scheduler`, `SchedulerOverlap` | replicas contending for the scheduler lease |
| `Mappings`, `MappingRuns`, `MappingEffects`, `MappingApprovals`, `MappingTables`, `Adoption`, `Activation` | channel mappings and their version history |
| `RecoveryCodes`, `LengthPrefix`, `Decimals`, `Digits` | encodings and money arithmetic |

The dedupe index of the job table is the one migration 0015 leaves behind: it covers waiting jobs only, not
running ones as migration 0014 first had it.

## What the proofs found

These are places where the code does not do what its comments or its callers would expect. Each has a lemma
with a concrete input and, next to it, the exact condition, as something that can be checked beforehand.

- **Fulfilment is refused although the units are there.** The shipment is posted before the reserved units
  are released and is checked against the old reserved figure, so an open reservation is fulfilled if and only
  if the units *nobody* reserved are at least as many at every allocated key
  (`InventoryInvariant.FulfilledExactly`, `Equivalence.FulfilmentTellsModesApart`). The comment that both
  modes end in the same state therefore holds only for fulfilments that are accepted. Migration to immediate
  consumption posts the same way and has the same condition, so a mode switch reports success while leaving
  exactly the reservations that do not fit behind (`Equivalence.SwitchLeavesBehind`,
  `InventoryRuns.SwitchMigratesExactly`).
- **Absolute counts depend on the mode**, because on-hand means something else in each
  (`Equivalence.AbsoluteCountsTellModesApart`). They agree if and only if as many units are reserved at the
  key in both, or the count is below what is reserved in both (`Equivalence.AbsoluteCountsAgreeExactly`).
- **An entry can be reversed twice, and its units with it.** Reversing by hand refuses a second reversal;
  releasing or migrating a consumed reservation reverses its entries without looking. Reverse the shipment of
  an open order by hand, then cancel the order, and the units come back twice (`Reversing.ReversedTwice`). An
  operation keeps "at most one reversal" if and only if it does not give back a take whose entry has one
  already (`Reversing.AtMostOnceKeptExactly`), and the one thing a caller must not do is reverse an entry that
  an open consumed reservation refers to (`Reversing.CleanKeptExactly`).
- **A kit with splitting on can advertise kits no plan can supply**: the pooled figure joins components from
  different locations, an allocation never does (`Availability.PooledCanOverpromise`; exactly when:
  `Availability.PooledPromiseKeptExactly`). Without splitting, the list of limiting components can be empty
  (`Availability.LimitedByNothing`; exactly when: `Availability.PerLocationExplainedExactly`).
- **One dedupe-key collision stops the whole reclaim sweep.** Putting a job back in the queue collides when a
  successor is already waiting under its key, and the sweep is one statement
  (`QueueRefusals.ReclaimRefusedExactly`, `QueueRefusals.OneCollisionBlocksTheSweep`).
- **A worker whose claim was taken away can still settle the job**; settling does not compare the holder
  (`QueueRefusals.StaleFailureRunsTwice`). A late settlement keeps the queue invariant if and only if nobody is
  running the job by then, and a failure that requeues it finds an attempt left, or the dedupe index refuses it
  anyway; a late release only does harm when the same worker holds the job again
  (`LateSettlement.HarmlessExactly`).
- **A mapping can go live for an item its approval was not given for**, along two paths: repointed between
  approval and activation it stays approved (`MappingApprovals.RepointedAfterApproval`), and repointed while
  active it is paused and can be activated again without another approval
  (`MappingApprovals.RepointedWhileActive`). A mapping is approved once, and an activation makes it writable for
  the approved item if and only if its row names that item before the call
  (`MappingApprovals.ActivatesApprovedItemExactly`); repointing is the only operation that ends that
  (`MappingApprovals.OnlyRepointingUnapproves`). What does hold is that a different item always needs a fresh
  activation (`MappingRuns.RepointingNeedsActivation`).
- **The dry run does not see a location without a balance row** (`Projection.NewLocationIsInvisible`; exactly
  when it is right: `Projection.DryRunIsRealExactly`).
- **The activation preview counts stock at deleted locations**, although it is to compute the target the way
  the projection will (packages/inventory/src/activation.ts:111), and the projection leaves them out
  (`Activation.DeletedStockIsPreviewed`; exactly when they agree: `Activation.PreviewAgreesExactly`). A location
  can only be deleted while it is empty, but releasing an order whose units were taken out puts them back
  where they came from (`InventoryRuns.ReleaseRefills`). For a kit the preview reads the kit's own balances,
  which the projection says must not be done, and shows nothing (`Activation.KitIsPreviewedAsNothing`; exactly
  when that is right: `Activation.KitPreviewAgreesExactly`).
- **Two replicas can tick at once**, when a step takes too long: its heartbeat
  (`SchedulerOverlap.SlowHeartbeatOverlaps`) or its tick, during which nothing renews
  (`SchedulerOverlap.SlowTickOverlaps`). The bound on a step, heartbeat and tick together, is a lease less the
  time that can have gone by since the last renewal; it is exact for all settings
  (`SchedulerOverlap.OverlapBoundExactly`). With the default intervals it is a whole lease
  (`SchedulerOverlap.DefaultPatience`).

## Model

| member | source | states |
|---|---|---|
| `Stock.LockOrderOf` | packages/inventory/src/ledger.ts:336-351 | The rows of a posting, strictly ascending and exactly its distinct keys |
| `Stock.LockOrderIsCanonical` | packages/inventory/src/ledger.ts:330-351 | The order depends on the set of keys alone, not on how movements list them |
| `Stock.LockOrder` | packages/inventory/src/ledger.ts:336-351 | Collecting into a map and sorting gives that one order |
| `Ledger.PostedExactly` | packages/inventory/src/ledger.ts:155-195 | A posting is accepted if and only if every movement is well formed and no touched key would end with fewer units than are reserved there |
| `Ledger.PostedBalances` | packages/inventory/src/ledger.ts:197-236 | An accepted posting moves every key by its net delta, leaves every reserved figure, touches nothing else, and keeps the CHECK constraints |
| `InventoryEffects.ShortExactly` | packages/inventory/src/ledger.ts:155-195 | A posting is answered with shortfalls exactly when it runs short and leaves no key merely below reserved; one per short key, with what is there, what was asked and the difference |
| `Inventory.Tables.PostMovements` | packages/inventory/src/ledger.ts:105-237 | The loops over movements and locked rows decide and write exactly that; a refusal writes no entry and moves no balance |
| `Inventory.Tables.LockBalances` | packages/inventory/src/ledger.ts:246-279 | Answers the figures of exactly the asked rows that exist |
| `Inventory.Tables.PostOrRollback` | packages/inventory/src/ledger.ts:307-328 | A refused transaction leaves balances, ledger and reservations as they were |
| `Inventory.Tables.AddReserved` | packages/inventory/src/reservations.ts:879-897 | Raises reserved by exactly what is taken at each key, and every single write stays within on-hand |
| `Inventory.Tables.ReleaseReserved` | packages/inventory/src/reservations.ts:899-917 | Lowers reserved key by key as the clamped updates do, within the constraints at every write |
| `Inventory.Tables.AvailableByItem` | packages/inventory/src/reservations.ts:823-877 | The availability of the line's items at its eligible locations, as the function the plan is made from; `InventoryEffects.AvailableExactly` says what it is |
| `Inventory.Tables.Reserve` | packages/inventory/src/reservations.ts:88-252 | Reading, planning, recording and rolling back are the step `InventoryEffects.ReserveAnswers` and `SafetyStockIsKept` are about, and the invariant is kept |
| `Inventory.Tables.Record` | packages/inventory/src/reservations.ts:147-223 | Recording a plan: shipments with their entries matched to takes by key, or reserved units, or the refusal that discards both |
| `Inventory.Tables.FulfillReservation` | packages/inventory/src/reservations.ts:267-326 | Shipping before releasing, in that order of writes, with every write within the constraints |
| `Inventory.Tables.ReleaseReservation` | packages/inventory/src/reservations.ts:347-425 | Giving back: lowering reserved, or posting a linked reversal of each consuming entry |
| `Inventory.Tables.MigrateReservation` | packages/inventory/src/reservations.ts:528-621 | Changing the recording of one reservation in either direction, or refusing and changing nothing |
| `Inventory.Tables.SwitchConsumptionMode` | packages/inventory/src/reservations.ts:479-525 | Migrating each open reservation in turn and then changing the mode is the switch `InventoryEffects.SwitchedExactly` is about |
| `Inventory.Tables.ApplyAdjustment` | packages/inventory/src/adjustments.ts:165-214 | A stated adjustment posts its delta, worked out from the locked row for an absolute count, or changes nothing |
| `Inventory.Tables.TransferStock` | packages/inventory/src/adjustments.ts:229-271 | One posting of both halves is the transfer `InventoryEffects.TransferredExactly` is about, and the invariant is kept |
| `Inventory.Tables.ReverseEntry` | packages/inventory/src/adjustments.ts:292-373 | Reversing by hand: refused for a reversal and for an entry that has one, otherwise a linked entry of the opposite delta or the posting's refusal |
| `InventoryInvariant.FulfilledExactly` | packages/inventory/src/reservations.ts:286-317 | An open reserve-mode reservation is fulfilled if and only if the free units at every allocated key cover it; otherwise nothing changes, and the reserved units are never reported gone |
| `InventoryInvariant.ShipHeld` | packages/inventory/src/reservations.ts:286-317 | Shipping and then releasing what a reservation holds lowers on-hand and reserved alike and keeps the constraints |
| `InventoryInvariant.NeverShort` | packages/inventory/src/reservations.ts:304-312 | Reserved units are on hand, so shipping them cannot run short |
| `InventoryInvariant.LoweredBalances` | packages/inventory/src/reservations.ts:899-917 | Under the invariant the clamp at zero never takes effect: reserved falls by exactly what is released |
| `InventoryInvariant.RestoredBalances` | packages/inventory/src/reservations.ts:373-412 | Reversing consumed takes adds exactly their units back at their keys |
| `InventoryInvariant.FulfillKeeps` | packages/inventory/src/reservations.ts:267-326 | Fulfilment keeps the run invariant and changes no free figure |
| `InventoryEffects.FulfilledEffect` | packages/inventory/src/reservations.ts:267-326 | What fulfilling answers in each case, and that it takes exactly the held units out of both figures under one entry per allocation, and ships consumed ones no second time |
| `InventoryRuns.ReleaseRestores` | packages/inventory/src/reservations.ts:347-425 | Releasing an open reservation with a reason always succeeds, reports every unit restored, and frees exactly its units at exactly its keys |
| `InventoryEffects.ReleasedEffect` | packages/inventory/src/reservations.ts:347-425 | What releasing answers in each case, and which figure, entries and status it changes in either mode |
| `InventoryRuns.ReleaseRefills` | packages/inventory/src/locations.ts:197-236 | Releasing a consumed order refills a row that had been emptied, which is all that deleting its location asks for |
| `InventoryRuns.MigrateConserves` | packages/inventory/src/reservations.ts:528-621 | Migration changes no free figure and no allocation; away from consumption always, towards it exactly when the allocation fits |
| `InventoryEffects.MigratedEffect` | packages/inventory/src/reservations.ts:528-621 | When a reservation is migrated, and that its units leave both figures under shipments it then refers to, or come back into both |
| `InventoryRuns.PlanFits` | packages/inventory/src/reservations.ts:119-145 | What the locked read said was available is still free when the plan is recorded |
| `InventoryEffects.AvailableExactly` | packages/inventory/src/reservations.ts:861-872 | Units are available to a plan exactly when they fit on the shelf beside what is reserved and the safety stock in force: the location's own figure before the item's, and the item's before the business's |
| `InventoryEffects.SafetyStockIsKept` | packages/inventory/src/reservations.ts:823-877 | Whatever a line is recorded with, at every key its units, those reserved before and the safety stock in force fit on the shelf, and the location is eligible |
| `InventoryEffects.PlainOrderIsFilled` | packages/inventory/src/reservations.ts:823-877 | A plain item ordered from one location is given what was asked, or all that lies there above reserved and safety stock |
| `InventoryEffects.SplitOrderIsFilled` | packages/domain/src/allocation.ts:140-166 | A recorded line that may be split is given as many units as any assignment of whole units to its locations that keeps reserved and safety stock, or all it asked for |
| `InventoryEffects.SplitOrderInTurn` | packages/domain/src/allocation.ts:148-160 | It draws on a location only once every location of higher priority has given all it could |
| `InventoryEffects.WholeOrderIsFilled` | packages/domain/src/allocation.ts:99-138 | A recorded line that may not be split is given as much as any one location could supply, all from the first able to |
| `InventoryEffects.ReserveAnswers` | packages/inventory/src/reservations.ts:88-252 | What every order line is answered, and what recording one writes: one reservation in the mode in force, its units reserved, or shipped under one entry each |
| `InventoryRuns.ReserveKeeps` | packages/inventory/src/reservations.ts:88-252 | Recording demand keeps the run invariant in either mode |
| `InventoryRuns.AdjustKeeps` | packages/inventory/src/adjustments.ts:165-214 | Adjusting keeps the run invariant |
| `InventoryEffects.AdjustedExactly` | packages/inventory/src/adjustments.ts:165-214 | A count sets the figure, a delta changes it by its sign, under one entry, exactly when reserved units stay covered; what it is answered otherwise |
| `InventoryRuns.TransferKeeps` | packages/inventory/src/adjustments.ts:229-271 | Transferring keeps the run invariant |
| `InventoryEffects.TransferredExactly` | packages/inventory/src/adjustments.ts:229-271 | A transfer goes through exactly when the source has that many units free; they leave the source and arrive at the destination under the two entries answered, and nothing else changes; what it is answered otherwise |
| `InventoryRuns.ReverseKeeps` | packages/inventory/src/adjustments.ts:292-373 | Reversing keeps the run invariant, links included |
| `InventoryEffects.ReversedExactly` | packages/inventory/src/adjustments.ts:292-373 | When an entry is reversed by hand, that its units go back under an entry naming it, and what is answered otherwise |
| `InventoryRuns.StepKeeps` | packages/inventory/src/reservations.ts:88-621 | Every operation keeps: on-hand is the ledger's sum, reserved is the sum of open reservations, 0 <= reserved <= on-hand, and every consumed take traces to its entry |
| `InventoryRuns.RunExplained` | packages/db/migrations/0001_foundation.sql:178-183 | After every run from nothing, both figures of every key are explained by the ledger and the open reservations, and lie within the constraints |
| `InventoryRuns.RefusedChangesNothing` | packages/inventory/src/ledger.ts:283-328 | Whatever a refused operation answers, the whole state is as before |
| `InventoryRuns.RunFrames` | packages/inventory/src/ledger.ts:197-220 | The ledger only grows; no allocation is ever recomputed and no resolved reservation reopened |
| `InventoryRuns.ReleaseGivesBackWhatReserveTook` | packages/inventory/src/reservations.ts:338-425 | Reserve, then any run at all, then release: the key gets back exactly what the reserve took there, however many migrations came between |
| `InventoryRuns.MigrateAllConserves` | packages/inventory/src/reservations.ts:500-522 | A switch changes no free figure at any key |
| `InventoryRuns.SwitchMigratesExactly` | packages/inventory/src/reservations.ts:500-522 | Which reservations a switch migrates does not depend on the order they are visited: all towards reserving, towards consuming exactly those that fit at the start |
| `InventoryEffects.SwitchedExactly` | packages/inventory/src/reservations.ts:479-525 | A switch nobody confirmed changes only the mode, and that only when no reservation is open; a confirmed one always ends in the mode asked for and migrates exactly the open reservations that fit; the answer says which, with the number of open ones |
| `InventoryRuns.MigratedStays` | packages/inventory/src/reservations.ts:500-522 | Migrating the others afterwards leaves a migrated reservation migrated |
| `Equivalence.ModesAreInterchangeable` | packages/inventory/src/reservations.ts:25-30 | Two runs with the same requests, each in any mode and switching or migrating at will, show every caller the same answers and plans and leave the same free units at every key, as long as orders are shipped only when units nobody reserved cover them |
| `Equivalence.NewBusinessesAreInterchangeable` | packages/inventory/src/reservations.ts:25-30 | The same for two businesses that start from nothing in different modes |
| `Equivalence.ShippableExactly` | packages/inventory/src/reservations.ts:286-317 | A fulfilment is not refused exactly when the guard holds: a reserved order's takes are covered by units nobody reserved |
| `Equivalence.StepSimilar` | packages/inventory/src/reservations.ts:170-209 | One request on two inventories that differ only in recording is accepted on both or on neither, with the same answer |
| `Equivalence.InternalIsInvisible` | packages/inventory/src/reservations.ts:479-525 | Switching and migrating are invisible to everything else |
| `Equivalence.PostingSimilar` | packages/inventory/src/ledger.ts:155-191 | A posting is accepted in one recording exactly when it is in the other |
| `Equivalence.SwitchLeavesBehind` | packages/inventory/src/reservations.ts:479-525 | An order for three beside two free units: the switch answers that it switched, and the order keeps its recording |
| `Equivalence.FulfilmentTellsModesApart` | packages/inventory/src/reservations.ts:260-317 | A state in which the same order ships in one recording and is refused in the other |
| `Equivalence.AbsoluteCountsAgreeExactly` | packages/inventory/src/adjustments.ts:165-214 | On any two inventories that differ only in recording, an absolute count gives the same answer and leaves them alike if and only if equally many units are reserved there, or it is below both reserved figures |
| `Equivalence.AbsoluteCountsTellModesApart` | packages/inventory/src/adjustments.ts:387-390 | An input where they differ: no change in one recording and three units in the other |
| `Reversing.AtMostOnceKeptExactly` | packages/inventory/src/reservations.ts:373-412 | From at most one reversal per entry, an operation keeps it if and only if it does not give back a take whose entry has a reversal already |
| `Reversing.CleanKeptExactly` | packages/inventory/src/adjustments.ts:292-373 | While no open consumed reservation's entry has been reversed, every operation keeps that, and at most one reversal per entry, except exactly a stated reversal by hand of an entry such a reservation refers to |
| `Reversing.CarefulRunsReverseOnce` | packages/inventory/src/reservations.ts:373-412 | Every run without such a reversal reverses every entry at most once |
| `Reversing.CarefulRunsFromNothing` | packages/inventory/src/adjustments.ts:279-340 | The same for every such run from nothing |
| `Reversing.GivingBackReverses` | packages/inventory/src/reservations.ts:373-400 | Releasing or migrating back reverses exactly the reservation's own entries, one by one |
| `Reversing.ReversedTwice` | packages/inventory/src/reservations.ts:373-412 | A shipment reversed by hand and then by cancelling its order: three units come back twice |
| `Allocation.PlanAllocation` | packages/domain/src/allocation.ts:66-84 | Validation and choice of plan, from loops over mutable totals |
| `Allocation.SingleLocationPlan` | packages/domain/src/allocation.ts:99-138 | The search for a location that suffices, else for the best one, with the running total that decides whether splitting would have helped |
| `Allocation.SplitPlan` | packages/domain/src/allocation.ts:140-166 | Filling in order while units remain gives the split plan |
| `Allocation.CapacityIsGreatest` | packages/domain/src/allocation.ts:86-97 | Capacity at a location is the greatest number of units its components can supply there |
| `Allocation.SplitIsOptimal` | packages/domain/src/allocation.ts:140-166 | Splitting supplies min(quantity, total capacity), at least as much as any assignment of whole units that overdraws nowhere |
| `Allocation.EarlierGiveAll` | packages/domain/src/allocation.ts:148-160 | A split plan draws on a location only once every location of higher priority has given all it can supply |
| `Allocation.CapacitiesAreFeasible` | packages/domain/src/allocation.ts:140-166 | The bound is attained by an assignment |
| `Allocation.SingleIsOptimal` | packages/domain/src/allocation.ts:99-138 | Without splitting everything comes from one location, no other alone supplies more, and none of higher priority as much |
| `Allocation.SplitBlockedExactly` | packages/domain/src/allocation.ts:120-137 | A line is reported blocked exactly when one location leaves a shortage and splitting would leave none |
| `Allocation.AllocatedPlusShortage` | packages/domain/src/allocation.ts:99-166 | Whatever is ordered is either allocated or recorded as short |
| `Allocation.TakesWithinAvailability` | packages/domain/src/allocation.ts:140-178 | No plan takes more than is available at any key |
| `Allocation.TakesMatchAllocated` | packages/domain/src/allocation.ts:168-178 | Every component is taken in the recipe's proportion to what was allocated |
| `Allocation.PlanTakesWellFormed` | packages/domain/src/allocation.ts:140-178 | Takes are positive, name each key once and stay among the given components and locations |
| `Availability.AvailableToSellAcrossLocations` | packages/domain/src/availability.ts:60-75 | The sum over locations, or the error for a location listed twice |
| `Availability.AdvertisedExactly` | packages/domain/src/availability.ts:45-91 | What a location has to sell and what a channel is told, as the greatest figures that respect reserved, safety stock, buffer and cap |
| `Availability.KitAvailability` | packages/domain/src/availability.ts:139-156 | The kit figure in either split setting, with its error cases |
| `Availability.KitErrorsExactly` | packages/domain/src/availability.ts:139-156 | Exactly which recipes and balances have no figure |
| `Availability.KitAvailabilityPooled` | packages/domain/src/availability.ts:159-169 | The loop over components keeps the smallest pooled quotient, and the error of a duplicated location |
| `Availability.KitAvailabilityPerLocation` | packages/domain/src/availability.ts:176-200 | The loops over locations and components add up each location's own capacity |
| `Availability.PooledIsGreatest` | packages/domain/src/availability.ts:159-169 | The pooled figure is the greatest k with k units of every component available in total |
| `Availability.PerLocationAtMostPooled` | packages/domain/src/availability.ts:159-200 | Building at single locations never promises more than pooling |
| `Availability.PerLocationOverOrder` | packages/domain/src/availability.ts:176-200 | The per-location figure is the total capacity an allocation sees, whatever the order of locations |
| `Availability.SplitSuppliesPerLocation` | packages/domain/src/allocation.ts:140-166 | A split plan supplies exactly min(quantity, per-location figure) |
| `Availability.AdvertisedIsSuppliedOrReported` | packages/domain/src/availability.ts:82-91 | An order up to the target of the per-location figure is filled, or reported blocked when splitting is off |
| `Availability.PlainItemIsSuppliedOrReported` | packages/domain/src/availability.ts:60-91 | The same for a plain item and its advertised sum, in both split settings |
| `Availability.PlainItemFigures` | packages/domain/src/availability.ts:60-75 | For a plain item the sum, the pooled and the per-location figure are one number |
| `Availability.PooledPromiseKeptExactly` | packages/domain/src/availability.ts:139-169 | With splitting on, every order up to a kit's target is filled if and only if the target is within the per-location figure |
| `Availability.PooledCanOverpromise` | packages/domain/src/availability.ts:159-169 | A kit advertised three times of which no plan supplies one |
| `Availability.KitCapacity` | packages/inventory/src/kits.ts:451-485 | The figure and the components that alone give the same figure |
| `Availability.PooledAlwaysExplained` | packages/inventory/src/kits.ts:459-477 | A pooled figure always names a limiting component |
| `Availability.LimitedByNothing` | packages/inventory/src/kits.ts:459-477 | A kit whose two parts are kept apart, without splitting: no kit can be built, and no component is named as limiting |
| `Availability.PerLocationExplainedExactly` | packages/inventory/src/kits.ts:459-477 | A per-location figure names one exactly when one component is the scarcest at every location |
| `Projection.ProjectItem` | packages/inventory/src/projection.ts:117-307 | Current and projected target of every mapping that is not archived, through the loops that build deltas, locations and selections |
| `Projection.ChannelsAre` | packages/inventory/src/projection.ts:227-280 | A channel is shown for exactly the mappings that are not archived, with its own locations and rules |
| `Projection.SumChanges` | packages/inventory/src/projection.ts:147-150 | Changes at one location are added together |
| `Projection.ReadSelectedLocations` | packages/inventory/src/projection.ts:386-409 | Each mapping gets exactly its own locations, in the order read |
| `Projection.ProjectLocations` | packages/inventory/src/projection.ts:152-191 | One projection for each listed location that has a balance row, floored at zero |
| `Projection.PreviewShortBy` | packages/inventory/src/projection.ts:147-191 | After an accepted posting an item has exactly what the preview said plus what was put where it had no row |
| `Projection.DryRunIsRealExactly` | packages/inventory/src/projection.ts:232-253 | The projected target never exceeds the real one, and equals it if and only if no new row matters, or the buffer hides all there is afterwards, or the cap is met by what was previewed |
| `Projection.DryRunIsReal` | packages/inventory/src/projection.ts:215-280 | When the moved locations have rows, every mapping's target after the posting is the one previewed |
| `Projection.NewLocationIsInvisible` | packages/inventory/src/projection.ts:153-170 | A first receipt at a location the preview shows as nothing |
| `RowLocks.NoDeadlock` | packages/inventory/src/ledger.ts:246-279 | In every reachable state with an unfinished transaction some transaction can step |
| `RowLocks.NextIsProgress` | packages/inventory/src/ledger.ts:246-279 | Every step strictly lowers the acquisitions that remain |
| `RowLocks.EveryRunFinishes` | packages/inventory/src/ledger.ts:239-279 | Runs are bounded, and a run that can go no further has finished every transaction |
| `RowLocks.NextKeeps` | packages/inventory/src/ledger.ts:120-144 | Inserting missing rows and then locking, each in lock order, keeps who holds what consistent |
| `RowLocks.EveryStartFinishes` | packages/inventory/src/ledger.ts:239-279 | From any rows and any requests: no state with an unfinished transaction is stuck, runs are bounded, and a run that can go no further has finished them all |
| `RowLocks.ReachingOnKeeps` | packages/inventory/src/reservations.ts:112-130 | Taking one more row after the locks, when it comes after every row held, leads to no deadlock |
| `RowLocks.OutOfOrderDeadlocks` | packages/inventory/src/ledger.ts:330-351 | For any two rows, taking them in the other order lets two transactions wait for each other for ever |
| `JobTable.Table.Enqueue` | packages/jobs/src/queue.ts:103-152 | Adds a job or names the one already waiting under its dedupe key |
| `QueueRefusals.WakeUpIsNeverLost` | packages/jobs/src/queue.ts:130-151 | Over both statements, whatever happened between them: the job named is waiting, under the key asked for or as a new job that is due at its time |
| `JobTable.Table.ClaimOnce` | packages/jobs/src/queue.ts:202-273 | Takes the chosen job, counts the attempt and opens its record, or leaves everything on an index violation |
| `JobTable.Table.Claim` | packages/jobs/src/queue.ts:183-200 | Tries again up to five times while the serialization index refuses |
| `JobTable.Table.Heartbeat` | packages/jobs/src/queue.ts:276-291 | Extends a claim only for its holder |
| `JobTable.Table.Succeed` | packages/jobs/src/queue.ts:293-315 | Ends the job and its record |
| `JobTable.Table.Supersede` | packages/jobs/src/queue.ts:323-347 | Cancels a job that has not ended, and closes the record when there is one |
| `JobTable.Table.Fail` | packages/jobs/src/queue.ts:373-436 | Requeues or buries the job by the decision, closes the record, or leaves both when the dedupe index refuses |
| `JobTable.Table.ReclaimExpired` | packages/jobs/src/queue.ts:447-478 | One statement over all claims, in which the dedupe index refuses everything or nothing: the sweep `QueueEffects.LeaseProtects` and `QueueRefusals.ReclaimEffect` are about |
| `JobTable.Table.ExpireOverdue` | packages/jobs/src/queue.ts:488-500 | Buries the waiting jobs whose window has closed |
| `JobTable.Table.Release` | packages/jobs/src/queue.ts:503-522 | Hands a claim back with its attempt |
| `JobTable.Table.Replay` | packages/jobs/src/queue.ts:548-565 | Puts a dead job back with a fresh window |
| `QueueEffects.ClaimedExactly` | packages/jobs/src/queue.ts:202-273 | A claim takes, of all jobs it may take, the one of lowest priority number, earliest due and oldest, writes its worker, deadline, attempt and record, and finds nothing exactly when there is none |
| `QueueEffects.FirstTryDecides` | packages/jobs/src/queue.ts:183-200 | Of several tries the first that is not lost to another claim is the answer |
| `QueueEffects.LeaseProtects` | packages/jobs/src/queue.ts:447-478 | After a claim or an accepted heartbeat no sweep up to the deadline touches the job or its record, through any run that leaves the job alone; the first accepted one after it takes the claim away |
| `QueueEffects.HeartbeatExactly` | packages/jobs/src/queue.ts:276-291 | Only the holder's deadline moves, to now plus the lease |
| `QueueEffects.EndedEffect` | packages/jobs/src/queue.ts:293-347 | What ending an open claim writes to the job and its record |
| `QueueEffects.FailedExactly` | packages/jobs/src/queue.ts:373-436 | Exactly when a failure is retried and for when, when it ends the job, and when the dedupe index refuses it |
| `QueueEffects.HandedBackExactly` | packages/jobs/src/queue.ts:503-522 | A claim handed back returns its attempt, unless another job waits under the key |
| `QueueEffects.WithdrawnExactly` | packages/jobs/src/queue.ts:323-347 | A job withdrawn from outside is cancelled unless it has ended |
| `QueueEffects.EnqueuedExactly` | packages/jobs/src/queue.ts:103-152 | The row a new job gets, and when there is none |
| `QueueEffects.ReplayedExactly` | packages/jobs/src/queue.ts:548-565 | A dead job gets its attempts and a fresh window back, unless another job waits under its key |
| `QueueEffects.ExpiredExactly` | packages/jobs/src/queue.ts:488-500 | Exactly the waiting jobs whose window has closed become dead, and are counted |
| `Queue.BestIsMostUrgent` | packages/jobs/src/queue.ts:214-247 | Nothing claimable is more urgent than what is taken, ties go to the older job, and a claim is empty only when nothing is claimable |
| `QueueRuns.NextKeeps` | packages/jobs/src/queue.ts:103-565 | Every operation keeps the queue invariant, including that what a worker was handed still describes its row while its claim is open |
| `QueueRuns.QueueInvariant` | packages/jobs/src/queue.ts:173-273 | After every run: one running job per serialization key, one waiting job per dedupe key, attempts within budget, records numbered without gaps, exactly one open record per running job |
| `QueueRuns.NumbersHaveNoGaps` | packages/jobs/src/queue.ts:249-266 | A job's records carry each number from 1 to its claims exactly once |
| `QueueRuns.LatestCountsClaims` | packages/jobs/src/queue.ts:255-263 | The greatest recorded number is the number of claims so far |
| `QueueRuns.OpenIsRunning` | packages/jobs/src/queue.ts:206-272 | An open claim belongs to a running job whose holder, counters and deadline are still the ones handed out |
| `QueueRuns.ClaimsAreBounded` | packages/jobs/src/queue.ts:202-273 | A job is claimed at most its maximum per enqueue or replay, plus once for every claim handed back |
| `QueueRuns.NeverMoreThanItsMaximum` | packages/jobs/src/queue.ts:214-220 | Without releases and replays, never more often than its maximum |
| `QueueRefusals.EnqueueExactly` | packages/jobs/src/queue.ts:106-150 | Coalesced exactly when a waiting job has the key; otherwise exactly one due job is added |
| `QueueRefusals.ClaimRefusedExactly` | packages/jobs/src/queue.ts:166-200 | A try is refused if and only if the job it picked is serialized with a running one it could not see |
| `QueueRefusals.ContestsAreSilent` | packages/jobs/src/queue.ts:183-200 | A claim takes what some try picked or comes back empty, never an error |
| `QueueRefusals.FailRefusedExactly` | packages/jobs/src/queue.ts:411-423 | A failure is refused if and only if it would be retried while another job waits under the same key |
| `QueueRefusals.FailureEffect` | packages/jobs/src/queue.ts:373-436 | A retry waits for a time between now and the deadline with an attempt left; anything else ends the job |
| `QueueRefusals.ReleaseRefusedExactly` | packages/jobs/src/queue.ts:503-522 | Handing back is refused exactly when another job waits under the same key |
| `QueueRefusals.ReplayExactly` | packages/jobs/src/queue.ts:548-565 | Replay works exactly on dead jobs whose key is free, and makes them due |
| `QueueRefusals.ReclaimRefusedExactly` | packages/jobs/src/queue.ts:447-478 | The sweep is refused as a whole if and only if a job it would put back collides with a waiting one or another it would put back |
| `QueueRefusals.ReclaimEffect` | packages/jobs/src/queue.ts:447-478 | Whatever rows are locked, an accepted sweep takes away exactly the other claims whose lease ended before it, refunds no attempt, touches nothing else, and reports exactly how many jobs it moved |
| `QueueRefusals.OneCollisionBlocksTheSweep` | packages/jobs/src/queue.ts:447-478 | A sound queue in which one collision keeps an unrelated lost job running at any later time |
| `LateSettlement.HarmlessExactly` | packages/jobs/src/queue.ts:293-522 | For every operation, in time or late: the queue invariant survives it if and only if the claim is still open, or a guard on the job's row holds before the call |
| `LateSettlement.LateEnding` | packages/jobs/src/queue.ts:293-347 | A late success or supersession is harmless exactly when the job is not running |
| `LateSettlement.LateFailure` | packages/jobs/src/queue.ts:373-436 | A late failure is harmless exactly when the job is not running and has an attempt left if it is requeued, or the dedupe index refuses it |
| `LateSettlement.LateRelease` | packages/jobs/src/queue.ts:503-522 | A late release is harmless exactly when its worker does not hold the job again, or the dedupe index refuses it |
| `LateSettlement.LateRunsKeep` | packages/jobs/src/queue.ts:103-565 | Every run whose late settlements meet the guard keeps the queue sound |
| `QueueRefusals.StaleFailureRunsTwice` | packages/jobs/src/queue.ts:373-436 | An input where the guard fails: a late failure puts a job two workers then run at once |
| `Retry.RetriedExactly` | packages/jobs/src/retry.ts:80-118 | A retry happens if and only if it could help, an attempt is left and the delay ends inside an open window; each refusal means what its name says |
| `Retry.ScheduleSpan` | packages/jobs/src/retry.ts:32-56 | The nine delays add up to 80 480 000 ms, 5 920 000 ms short of the window |
| `Retry.DelaysGrow` | packages/jobs/src/retry.ts:32-56 | Five seconds first, at least twice as long each time after, and twelve hours from the tenth attempt on |
| `RetryRuns.TenAttemptsFitExactly` | packages/jobs/src/retry.ts:135-144 | A job that always fails gets all ten attempts under every jitter when waiting and work total at most 5 920 008 ms, and with more there is a jitter under which it does not |
| `RetryInQueue.LifeIsPlay` | packages/jobs/src/queue.ts:202-436 | In any run of the queue, whatever else happens in it, the row and the claims of a job that is claimed and failed round by round, and otherwise left alone, are those of the chain of row changes |
| `RetryInQueue.TenClaimsFit` | packages/jobs/src/retry.ts:135-144 | In any such run a job just enqueued is claimed ten times and is then dead, when waiting and working total at most 5 920 008 ms |
| `RetryInQueue.TenClaimsMissed` | packages/jobs/src/retry.ts:135-144 | For any rounds that total more there is a run of the queue from nothing that lives them, with the slowest draws, and claims the job nine times or fewer |
| `RetryInQueue.AloneIsLived` | packages/jobs/src/queue.ts:202-436 | Whatever the rounds, some run of the queue lives exactly them |
| `RetryRuns.RoomForAll` | packages/jobs/src/retry.ts:80-144 | With room left, every remaining attempt is made and the end is exhausted attempts |
| `RetryRuns.NoRoom` | packages/jobs/src/retry.ts:80-144 | Without room the slowest draws lose an attempt, and the end is never exhausted attempts |
| `Lease.LeaseTable.Acquire` | packages/db/src/leases.ts:42-88 | The lease is won exactly when there was none, it had expired or it was one's own; "leader since" survives renewals; once won, nobody else can take it before its end |
| `Lease.LeaseTable.Renew` | packages/db/src/leases.ts:99-115 | True exactly for the holder of an unexpired lease; then only its end moves and nobody else can take it before the new end |
| `Lease.LeaseTable.Release` | packages/db/src/leases.ts:124-129 | The caller holds nothing afterwards; what it held anybody can take at once, and what another holds is untouched |
| `Scheduler.NextKeeps` | apps/worker/src/scheduler.ts:87-166 | Whatever happens between two awaits, a leader's flag is backed by its row until a lease after its last renewal |
| `Scheduler.FreshLeaderHoldsTheLease` | apps/worker/src/scheduler.ts:62-140 | A leader whose last renewal is at most a lease old holds an unexpired row |
| `Scheduler.OneFreshLeader` | packages/db/src/leases.ts:5-18 | In every interleaving, with clocks set however, no two replicas are fresh leaders at once |
| `Scheduler.LostLeaseStopsTicking` | apps/worker/src/scheduler.ts:111-121 | After any run from the moment its flag is down, a replica that has not won the lease again is not ticking and does not lead |
| `Scheduler.FollowersContend` | apps/worker/src/scheduler.ts:96-160 | Whoever does not get the lease, loses it, or fails waits the contending interval and contends again |
| `Scheduler.TicksAreSpaced` | apps/worker/src/scheduler.ts:151-153 | Between two ticks of a replica that stays leader lies at least the tick interval, whatever happens in between |
| `Scheduler.StoppingHandsOver` | apps/worker/src/scheduler.ts:179-199 | Once a stopping leader's release has run, any other replica's statement wins |
| `SchedulerOverlap.TickRunsUnderLease` | apps/worker/src/scheduler.ts:143-166 | Until a step has lasted the bound, its tick runs under a lease of its own that nobody can take |
| `SchedulerOverlap.ShortStepsDoNotOverlap` | apps/worker/src/scheduler.ts:106-166 | In no run are two replicas inside ticks of steps that have lasted no longer than the bound |
| `SchedulerOverlap.OverlapBoundExactly` | apps/worker/src/scheduler.ts:59-166 | For all settings the bound is exact: with any longer one there is a run in which two replicas tick at once |
| `SchedulerOverlap.TickStartsUnderLease` | apps/worker/src/scheduler.ts:106-166 | A tick starts under its own lease when its heartbeat was within the bound, and under one with time left when it was shorter, as anything below two thirds of a lease is |
| `SchedulerOverlap.SlowTickOverlaps` | apps/worker/src/scheduler.ts:151-166 | For all settings, a run in which a tick one millisecond longer than the bound overlaps another replica's |
| `SchedulerOverlap.SlowHeartbeatOverlaps` | apps/worker/src/scheduler.ts:143-153 | For all settings, a run in which a heartbeat that much too long starts a tick while another replica holds the lease and ticks |
| `SchedulerOverlap.DefaultPatience` | apps/worker/src/scheduler.ts:54-62 | With the default intervals every leader's step renews, and the bound is a whole lease |
| `Mappings.LiveFor` | packages/inventory/src/mappings.ts:603-620 | Finds an entity's mapping that is not archived, or there is none |
| `MappingTables.Database.Propose` | packages/inventory/src/mappings.ts:77-161 | A draft with its locations and version 1, or the refusal, with no constraint violated |
| `MappingTables.Database.Approve` | packages/inventory/src/mappings.ts:179-226 | A draft becomes approved as its next version |
| `MappingTables.Database.Revise` | packages/inventory/src/mappings.ts:253-355 | The row, its locations and the next version are written together: the revision `MappingEffects.RevisedExactly` is about |
| `MappingTables.Database.Archive` | packages/inventory/src/mappings.ts:367-411 | Retired as its next version |
| `MappingTables.Database.Activate` | packages/inventory/src/activation.ts:343-418 | Goes live as its next version, or names what blocks it |
| `MappingTables.Database.Pause` | packages/inventory/src/activation.ts:506-547 | An active mapping stops with a reason as its next version |
| `MappingTables.Database.BumpVersion` | packages/inventory/src/activation.ts:757-801 | Records the row and its location rows under the next number, before the row changes |
| `MappingEffects.ProposedExactly` | packages/inventory/src/mappings.ts:77-161 | When a proposal becomes a draft, with which rules and locations, and what it is answered otherwise |
| `MappingEffects.ApprovedExactly` | packages/inventory/src/mappings.ts:179-226 | A draft and nothing else becomes approved, and only that changes |
| `MappingEffects.RevisedExactly` | packages/inventory/src/mappings.ts:253-355 | When a revision is accepted; then item, buffer, cap and locations are the values given or the old ones, in the row and in the version recorded, and every other mapping is as it was |
| `MappingEffects.RevisedIsWritten` | packages/inventory/src/mappings.ts:253-355 | An active mapping that keeps its item is written with the new rules at once |
| `MappingEffects.ArchivedExactly` | packages/inventory/src/mappings.ts:367-411 | Whatever is not retired is retired, and only that changes |
| `MappingEffects.ActivatedEffect` | packages/inventory/src/activation.ts:343-418 | What an activation is answered, blocked with exactly the reasons that stand, and that it changes only the status |
| `MappingEffects.PausedExactly` | packages/inventory/src/activation.ts:506-547 | An active mapping and nothing else is paused with the reason given, and is not writable any more |
| `MappingEffects.WriteTargetExactly` | packages/inventory/src/activation.ts:662-724 | Writable exactly while active with an eligible, present entity, with the row's own figures; otherwise the reason |
| `MappingTables.NextNumberIsFree` | packages/db/migrations/0011_channel_mappings.sql:152-153 | The unique index on version numbers never refuses the next one |
| `MappingRuns.NextKeeps` | packages/inventory/src/mappings.ts:77-411 | Every operation keeps: versions 1..n, the row equal to the last, lawful successions, one live mapping per entity, all CHECK constraints |
| `MappingRuns.MappingHistory` | packages/db/migrations/0011_channel_mappings.sql:59-100 | The same after every run from nothing |
| `MappingRuns.HistoryOnlyGrows` | packages/db/migrations/0011_channel_mappings.sql:166-177 | A run only appends versions |
| `MappingRuns.ApprovedEarlier` | packages/inventory/src/mappings.ts:196-223 | A mapping that is approved, active or paused was approved out of a draft at some version |
| `MappingRuns.ActivatedAt` | packages/inventory/src/activation.ts:391-406 | A stretch of active versions starts with an activation of exactly what was there |
| `MappingRuns.RepointingNeedsActivation` | packages/inventory/src/mappings.ts:314-326 | Between two active versions with different items lies a paused one with the new item and its activation |
| `MappingRuns.WritableMeans` | packages/inventory/src/activation.ts:662-724 | In every run, a writable mapping is eligible and present, was approved earlier, was activated for the item being written and active for it since, and is its entity's only live one |
| `MappingRuns.ActivatedExactly` | packages/inventory/src/activation.ts:343-418 | Activation succeeds if and only if nothing blocks it, and then the mapping is writable as it stood |
| `MappingApprovals.OneApproval` | packages/inventory/src/mappings.ts:196-223 | A history has at most one version at which a draft became approved |
| `MappingApprovals.ApprovedAtActivation` | packages/inventory/src/activation.ts:391-406 | The item of an active mapping is the one its approval was given for if and only if it was just before the last activation |
| `MappingApprovals.ActivatesApprovedItemExactly` | packages/inventory/src/activation.ts:343-418 | An activation makes a mapping writable for the approved item if and only if its row names that item before the call |
| `MappingApprovals.OnlyRepointingUnapproves` | packages/inventory/src/mappings.ts:271-346 | A row that names the approved item goes on naming it through every operation but exactly an accepted repointing |
| `MappingApprovals.UnrepointedWritesApprovedItem` | packages/inventory/src/activation.ts:662-724 | Through every run without a repointing the item stays the approved one |
| `MappingApprovals.RepointedAfterApproval` | packages/inventory/src/mappings.ts:314-326 | A run that repoints between approval and activation, and ends writable for an item not approved |
| `MappingApprovals.RepointedWhileActive` | packages/inventory/src/activation.ts:362-367 | A run that repoints while active, activates the paused mapping again, and ends the same way |
| `Adoption.AdoptedExactly` | packages/inventory/src/activation.ts:428-497 | A starting quantity is adopted exactly when it is a count, its location is settled and it covers what is reserved; then only that figure changes |
| `Adoption.WhereExactly` | packages/inventory/src/activation.ts:444-462 | The location of a starting quantity is the one asked for or the mapping's only one |
| `Activation.ActivatesExactly` | packages/inventory/src/activation.ts:343-418 | With the target computed from the balances: the transaction goes through exactly when nothing blocks it and the figure can be recorded. Then one balance is set to the figure, the ledger grows by the entry, and the inventory's invariant still holds, so every balance is the sum of its entries; otherwise neither mappings nor inventory change |
| `Activation.RecordedExactly` | packages/inventory/src/activation.ts:371-392 | When the figure can be recorded, for each source it may come from, and that only the one balance is set to it |
| `Activation.RecordingKeeps` | packages/inventory/src/activation.ts:428-497 | Recording a starting figure keeps the inventory's invariant, whatever the figure and location |
| `Activation.PreviewedIsProjected` | packages/inventory/src/activation.ts:157-193 | What the preview adds up is what the projection adds up and what lies at deleted locations besides |
| `Activation.PreviewAgreesExactly` | packages/inventory/src/activation.ts:108-113 | The previewed target is never below the advertised one, and equals it if and only if nothing is left to sell at a deleted location of the mapping, or buffer or cap hide it |
| `Activation.DeletedStockIsPreviewed` | packages/inventory/src/activation.ts:157-193 | Five units at a deleted location: the preview shows five, the mapping advertises none |
| `Activation.KitPreviewAgreesExactly` | packages/inventory/src/projection.ts:236-245 | A kit without balances of its own is previewed as nothing, which is right if and only if its components allow none beyond the buffer or its cap is zero |
| `Activation.KitIsPreviewedAsNothing` | packages/inventory/src/activation.ts:157-193 | A kit of which three can be sold is previewed as nothing |
| `Activation.FigureIsAdvertised` | packages/inventory/src/activation.ts:407-417 | A mapping with one location then advertises that figure, less what is reserved and kept back, within its buffer and cap |
| `RecoveryCodes.Base32` | packages/crypto/src/tokens.ts:85-102 | Although the accumulator wraps at 32 bits, the characters are the leading base-32 digits of the whole number |
| `RecoveryCodes.RandomBase32` | packages/crypto/src/tokens.ts:85-102 | Twenty bytes give exactly the 32 digits of their 160-bit value |
| `RecoveryCodes.FiveBitsSurvive` | packages/crypto/src/tokens.ts:91-99 | The bits still to be emitted are below the wrap |
| `RecoveryCodes.CodesAreLossless` | packages/crypto/src/tokens.ts:85-102 | Codes and bytes determine each other |
| `RecoveryCodes.FormatRecoveryCode` | packages/crypto/src/tokens.ts:104-112 | Groups of eight joined by hyphens |
| `RecoveryCodes.ReadExactly` | packages/crypto/src/tokens.ts:77-83 | What normalizes to a code is exactly its characters in any case, with O for 0 and I or L for 1, and separators anywhere |
| `RecoveryCodes.RoundTrip` | packages/crypto/src/tokens.ts:77-112 | What is shown reads back as the code |
| `RecoveryCodes.Idempotent` | packages/crypto/src/tokens.ts:77-83 | Normalizing twice changes nothing more, for any input |
| `LengthPrefix.RoundTrip` | packages/crypto/src/hash.ts:133-135 | Any list of fields decodes from its encoding |
| `LengthPrefix.RoundTripBack` | packages/crypto/src/hash.ts:133-135 | Whatever decodes is the encoding of what it decodes to |
| `LengthPrefix.UniquelyDecodable` | packages/crypto/src/envelope.ts:171-196 | Two lists encode alike only if they are the same list, whatever their number and contents |
| `LengthPrefix.ContextsAreDistinct` | packages/crypto/src/envelope.ts:179-196 | Two contexts encode alike if and only if every field and the key version agree, no business counting as an empty one |
| `LengthPrefix.SplitsDiffer` | packages/crypto/src/envelope.ts:171-178 | Moving text across the colon between resource and secret type changes the bytes |
| `Decimals.RoundTrip` | packages/ai/src/budget.ts:176-206 | Every non-negative scaled value reads back from its string |
| `Decimals.SubtractThenCompare` | packages/ai/src/budget.ts:155-168 | What is left plus what was spent is the budget, or nothing is left when overspent, and comparison agrees |
| `Decimals.KeptExactly` | packages/ai/src/budget.ts:186-191 | Six decimals or fewer are kept exactly |
| `Decimals.SignedParts` | packages/ai/src/budget.ts:176-199 | White space around a number does not count, and a minus sign turns it round |
| `Decimals.CutOff` | packages/ai/src/budget.ts:186-191 | Digits past the sixth are dropped, never rounded |
| `Decimals.ExactlySixDecimals` | packages/ai/src/budget.ts:176-192 | A rate means what it says exactly when every digit past the sixth is zero, and otherwise less |
| `Decimals.EstimatesCoverWrittenRates` | packages/ai/src/budget.ts:133-152 | For rates of at most six decimals, by their digits: the strings of any number of estimates add up to at least the cost and exceed it by less than a millionth each |
| `Decimals.EstimatedExactly` | packages/ai/src/budget.ts:133-152 | There is an estimate exactly when both rates are known |
| `Decimals.TooFineARateIsFree` | packages/ai/src/budget.ts:176-192 | What the condition guards against: a positive rate with six leading zero decimals would price every answer at nothing |

## Left out

- Concurrency inside a transaction: every `transactionally` call and every queue operation is one atomic step, except in `RowLocks` and `Scheduler`. In particular a reservation's status is read before its rows are locked (packages/inventory/src/reservations.ts:706-737), `pauseMapping` reads without a lock, and a reserve that reads a row committed after its locks, and then takes it, is covered only by the condition under which that is safe (`RowLocks.ReachingOnKeeps`, `RowLocks.OutOfOrderDeadlocks`).
- Settling a claim is two statements in the worker (the job row, then its attempt record); the model takes them together, so a crash or another claim between them is not covered.
- JobTable.Table.Enqueue: one atomic step, in which the winner cannot end between the two statements; `QueueRefusals.WakeUpIsNeverLost` is about the two of them with anything in between.
- JobTable.Table.Claim: the tries of one claim see different locked and hidden rows but no other commits in between.
- Scheduler.OneFreshLeader: replica clocks may be set differently but run at the database's rate, timers do not fire early, and a statement does not run after its caller gave up on it. A replica that is stopping keeps its flag until its release is confirmed; that interval is not counted as leading.
- RecoveryCodes.ReadExactly: upper-casing is modelled for ASCII; the few other characters JavaScript upper-cases to ASCII letters are not.
- LengthPrefix.UniquelyDecodable: fields are byte strings; the UTF-8 encoding of strings, which maps all lone surrogates to one sequence, comes before it.
- Decimals.EstimatesCoverWrittenRates: rates are written without a sign or white space and with at most six decimals, as the `numeric(18, 6)` columns they are stored in (packages/db/migrations/0024_ai.sql:90-91) give them back.
- Decimals.TooFineARateIsFree: those columns round on write, so no such rate reaches the estimate today; `Decimals.ExactlySixDecimals` is the condition they secure.
- Projection.ProjectItem: ordinary items only, and only the two targets of each channel; whether it is writable or suppressed is a matter of one comparison each.
- Activation.PreviewAgreesExactly: ordinary items; for kits see `Activation.KitPreviewAgreesExactly`, which takes the component balances at the mapping's locations as given.
- Projection.DryRunIsReal: ordinary items only; the code does not project a kit's capacity under a change.
- Integer columns are unbounded here: the 32-bit range of stored quantities and the safe-integer checks are not modelled, nor are fractional numbers, which those checks refuse. Availability figures that the constraints make non-negative have type `nat`.
- Foreign keys and unknown items or locations (`the item or location does not belong to this business`), deleted items, and multi-business scoping: rows are assumed to exist in one business.
- Who did something, when and why: users, timestamps, correlation ids and the text of reasons. Whether a reason was given is kept where the code refuses without one.
- Recipe versions, kit declaration and the assembly of a recipe from an order line: an order line arrives with its components.
- MappingTables.Database.Activate: takes the computed target and the answer of `adopt` as inputs, as does MappingRuns.ActivatedExactly; module `Activation` computes both from the balances and is about the whole transaction.
- MappingRuns.ActivatedExactly: see the line above.
- `pauseIncompleteVariationListings` is a loop of pauses and is not modelled.
- SQL text, drivers, encryption, hashing, randomness, HTTP, logging, metrics, the web application and provider adapters.
