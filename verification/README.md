# Inventory storage: a verified model

This project models the inventory-storage service and proves its conservation and protocol properties.

**The books** (`Shared`, `Aggregates`, `Ledger`, `Transitions`, `Evolution`). Stock units, bins, reservations and the
log of published events, as values. A unit's reserved part must equal what ACTIVE reservations drew from it (plus a
stated gap), a bin's occupancy must equal the stock recorded in it, and the log must account for both. Each kind of
change is shown to keep all of this.

**The warehouse in memory** (`Repositories`, `AllocationLoop`, `CountLoop`, `Warehouse`, with `UseCases`, `Sweeps`,
`Sequential`, `CallPromises`, `Answers`, `CountAnswers`). The aggregates are objects changed in place, the
repositories are maps of those objects, and the use cases are methods with the loops of the original. Each method is
proved against a relation on the books, and those relations are proved to keep every law over any sequence of calls.
`Answers` and `CountAnswers` say what each use case answers and leaves behind in quantities, states and events alone,
with the exact condition of every answer.

**The warehouse over Postgres** (`Rows`, `Requests`, `Invariants`, `Safety`, the `*Steps` files, `Resolutions`,
`Beginnings`, `Interleavings`, `Theorems`, `RunAnswers`, `BinVersions`, `LoneRuns`, `LoneUseCases`, `Exhibits`,
`JoinedScope`). A table maps an id to content and version. Any number of requests take turns one statement at a time,
each with the snapshots it read and the rows it has staged; any of them may fail or crash at any point. `Theorems` and
`BinVersions` state what holds over every run, and `LoneUseCases` that a request left alone completes and does what
its use case does. `Exhibits` holds runs in which an undesired outcome they allow for does happen.

**Around it**: `Segregation` (the hazard matrix and both stow checks), `Relay` (the outbox relay), `Idempotency` (the
Idempotency-Key middleware), `FacilityCache` (the event-fed slot lookup), `Projection`, `ProjectionStores` and
`Reporting` (the analytics read model, and its agreement with the ledger).

Many small lemmas have an empty body: each takes one fact out of a large invariant, so that the proofs using it need
not open the invariant.

## Where the code and its documentation differ

The model follows the code.

- `internal/application/usecases/reserve_stock.go:153-159` says a later failure leaves no partial draw behind. The unit
  saves are outside the atomic scope (lines 58-62), so under failures reserved stays above what is claimed. `NoOversell`
  says by exactly how much, `ExactIffNoDraw` when, `FailedDrawStays` that nothing ever repairs it, and
  `FailedReserveLeavesDraw` is a run in which it happens.
- `internal/adapters/outbound/postgres/unit_of_work.go:60-64` presents joining as harmless. A joined scope does not roll
  back on error, and `internal/adapters/inbound/http/idempotency.go:237-263` commits error responses;
  `JoinedKeepsLedgerIff` says exactly when the ledger survives that, and
  `StaleJoinedExpiryOversells` is a run in which it does not.
- `internal/adapters/outbound/postgres/outbox_relay.go:39-45` promises that no later row overtakes a failed one. With a
  limit on attempts it does; `FaithfulIffUnlimited` gives the exact condition.
- `internal/adapters/inbound/kafka/analytics_consumer.go:69-71` promises exactly once. The id is marked before the event
  is applied, so a failed apply is never made up for; `AppliedIffFirstSucceeds` gives the exact condition.
- `internal/adapters/outbound/postgres/location_repo.go:26-42` saves a fresh bin with version 1 as its guard, so a second
  creator overwrites a row still at version 1. `BinsConserved` shows why that loses no stock.
- The same lines count one version per save. A confirmation saves a bin once for each allocation in it
  (`internal/application/usecases/confirm_pick.go:83-93`), so committed bin versions can skip numbers.
  `BinVersionsSkipIff` says exactly when, and `ConfirmationSkipsVersion` is a run in which they do.
- A replayed response is matched on key and body only, not on method or path
  (`internal/adapters/inbound/http/idempotency.go:171`).

## Model

| member | source | states |
|---|---|---|
| `Stock.StockUnit.Reserve` | internal/domain/stock/stock_unit.go:95-105 | The whole new value after a reserve, or the old value with the error: refused when unlocated or removed, or beyond what is usable. |
| `Stock.StockUnit.ReleaseReservation` | internal/domain/stock/stock_unit.go:109-119 | Gives back at most what is reserved; a RESERVED unit with nothing reserved left becomes AVAILABLE, any other state stays. |
| `Stock.StockUnit.Pick` | internal/domain/stock/stock_unit.go:124-141 | Takes stock out of reserved and quantity alike, whatever the state was, unlocated included; REMOVED exactly when nothing is left. |
| `Stock.StockUnit.MarkUnlocated` | internal/domain/stock/stock_unit.go:145-147 | Only the state changes; quantity and reserved stay. |
| `Location.Bin.Occupy` | internal/domain/location/bin.go:68-77 | Fills up to capacity and no further; zero quantities and overfull stows leave the bin as it was. |
| `Location.Bin.Release` | internal/domain/location/bin.go:80-90 | Frees at most what is occupied. |
| `Location.Bin.Resize` | internal/domain/location/bin.go:97-106 | Never below the present occupancy. |
| `Claims.Reservation.Revoke` | internal/domain/reservation/reservation.go:114-120 | Leaves ACTIVE once; any other status refuses and stays. |
| `Claims.Reservation.Confirm` | internal/domain/reservation/reservation.go:124-133 | Leaves ACTIVE only within the timeout; past it the reservation stays as it was. |
| `Claims.Reservation.Expire` | internal/domain/reservation/reservation.go:137-143 | Leaves ACTIVE once. |
| `Transitions.ResolvedLawful` | internal/application/usecases/reservation_expiry.go:43-90 | A whole revocation, expiry or pick keeps every law at once: ledger coverage, bin balances, claims on existing units, the audit of the event log. |
| `Transitions.ActiveIsHeld` | internal/application/usecases/reservation_expiry.go:43-60 | What an ACTIVE reservation drew from a unit is still reserved there and on hand, so giving it back or picking it cannot fall short. |
| `Transitions.PickedOnHand` | internal/application/usecases/confirm_pick.go:48-60 | Picking a reservation takes from every bin, and from every SKU, exactly what it had allocated there. |
| `Transitions.DrawnLawful` | internal/application/usecases/reserve_stock.go:58-62 | A unit saved ahead of its reservation opens a gap between reserved and claimed of exactly that draw, and harms nothing else. |
| `Transitions.RecordedLawful` | internal/application/usecases/reserve_stock.go:75-85 | Recording the reservation closes exactly the gap its draws opened. |
| `Transitions.FlaggedLawful` | internal/application/usecases/run_cycle_count.go:112-131 | Marking units unlocated keeps every law: reserved stock, bin occupancy and the log still agree. |
| `Transitions.StowedLawful` | internal/application/usecases/stow_stock.go:78-90 | A stow keeps every law: unit, occupancy and ItemStowed move together. |
| `Transitions.BinSetLawful` | internal/application/usecases/register_bin.go:66-94 | Creating or resizing a bin keeps every law. |
| `Transitions.SegregatedStow` | internal/application/usecases/stow_stock.go:162-207 | A unit checked against the occupants in one direction keeps the bin segregated in both, given a symmetric matrix. |
| `GreedyAllocation.GreedyIsFair` | internal/application/usecases/reserve_stock.go:160-197 | For any order of distinct units: takes are positive, within each unit's usable, on distinct listed units, and record the unit's own bin. |
| `GreedyAllocation.GreedyCovers` | internal/application/usecases/reserve_stock.go:160-197 | The takes sum to the quantity exactly when the units have that much usable between them, else to all they have. |
| `GreedyAllocation.GreedyDrains` | internal/application/usecases/reserve_stock.go:172-190 | Every unit listed before the last one drawn on has been drained. |
| `AllocationLoop.Allocate` | internal/application/usecases/reserve_stock.go:160-197 | The loop over objects changed in place computes the greedy allocation and draws it; when stock is short it reports so and no unit has changed. The two error branches inside the loop and after it are not reachable. |
| `AllocationLoop.GreedyStops` | internal/application/usecases/reserve_stock.go:173-175 | Stopping once the quantity is covered gives the same allocation as visiting every unit. |
| `AllocationLoop.SumUsable` | internal/application/usecases/get_usable.go:23-35 | The loop adds up the usable quantity of every listed unit. |
| `CycleCounting.LossesCover` | internal/application/usecases/run_cycle_count.go:112-131 | The flagged parts come to exactly the shortfall, or to everything listed when that is less. |
| `CycleCounting.LossesAreNeeded` | internal/application/usecases/run_cycle_count.go:112-131 | No shorter prefix of the units would have covered the shortfall. |
| `CountLoop.LocatableUnits` | internal/application/usecases/run_cycle_count.go:95-106 | The loop keeps the located, still present units in order and sums what they record. |
| `CountLoop.MarkShortfall` | internal/application/usecases/run_cycle_count.go:112-131 | The loop flags exactly the units the shortfall needs and reports each with the part it covers; no other unit changes. |
| `CallPromises.ShortfallIsCovered` | internal/application/usecases/run_cycle_count.go:71-80 | A shortfall flags the shortest prefix of located units that covers it, in whatever order they were listed, and the ItemUnlocated quantities sum to it. |
| `CallPromises.CountReconciles` | internal/application/usecases/run_cycle_count.go:33-90 | The system quantity does not depend on the listing order; after a shortfall at most the counted quantity is left located; otherwise no unit changes. |
| `CallPromises.RecountAgrees` | internal/application/usecases/run_cycle_count.go:44-51 | Counting again exactly what is located reports no discrepancy and changes no unit. |
| `Rows.RowStore.SaveRow` | internal/adapters/outbound/postgres/stock_repo.go:35-52 | The guarded upsert: insert, replace at the expected version and count up, or report a concurrent modification and change nothing. |
| `Rows.GuardedSaveIsAtomic` | internal/adapters/outbound/postgres/stock_repo.go:35-52 | A save of a row that was read succeeds exactly when the table still holds the very row that was read. |
| `Interleavings.StepKeepsInv` | internal/adapters/outbound/postgres/unit_of_work.go:65-93 | Every statement of every request, every commit, rollback and crash keeps the invariant of the whole database and all requests. |
| `Interleavings.RunKeepsInv` | internal/adapters/outbound/postgres/unit_of_work.go:65-93 | The invariant holds in every state of every interleaving of any number of requests. |
| `Interleavings.StepEvolves` | internal/adapters/outbound/postgres/unit_of_work.go:70-93 | Every step is one legal change of the books: what a transaction wrote becomes visible as a whole resolution, stow, count, registration, draw or record. |
| `Safety.CommitLeavesOther` | internal/adapters/outbound/postgres/unit_of_work.go:70-93 | Whatever a request commits, every other request's reads and staged rows stay as good as they were. |
| `Safety.AbortKeeps` | internal/adapters/outbound/postgres/unit_of_work.go:74-84 | An error or crash rolls staged rows back and keeps the invariant; a reserve that had saved units leaves exactly its draws behind. |
| `StowSteps.StowKeeps` | internal/application/usecases/stow_stock.go:48-96 | Each statement of a stow keeps the invariant; the bin's version, read before the occupants, guards the write. |
| `StowSteps.RegisterKeeps` | internal/application/usecases/register_bin.go:66-94 | Each statement of a registration keeps the invariant, racing creations of the same bin included. |
| `CountSteps.CountKeeps` | internal/application/usecases/run_cycle_count.go:41-85 | Each statement of a count keeps the invariant, although its units were read before its transaction began. |
| `ReserveSteps.ReserveKeeps` | internal/application/usecases/reserve_stock.go:48-85 | Each statement of a reserve keeps the invariant, its unit saves committing one by one. |
| `Resolutions.ResolveKeeps` | internal/application/usecases/reservation_expiry.go:62-90 | Each statement of a resolution keeps the invariant, although the reservation was read before the transaction and its units within it. |
| `Resolutions.ResolveCommits` | internal/application/usecases/confirm_pick.go:48-60 | When a resolution commits, its staged rows are exactly the whole resolution of a reservation that is still ACTIVE. |
| `Beginnings.BeginningKeeps` | internal/application/usecases/reserve_stock.go:35-56 | A request may begin at any moment, on any listing order, without disturbing the invariant. |
| `Theorems.NoOversell` | internal/application/usecases/reserve_stock.go:48-85 | In every interleaving every unit keeps ACTIVE draws <= reserved <= quantity, and the first gap is exactly what reserves in flight or failed have drawn. |
| `Theorems.ExactIffNoDraw` | internal/application/usecases/reserve_stock.go:58-62 | At every moment of every run a unit's reserved part equals its ACTIVE draws if and only if no reserve that has not recorded its reservation, in flight or failed, has saved a draw on that unit. |
| `Theorems.FailedDrawStays` | internal/application/usecases/reserve_stock.go:58-88 | What a failed reserve drew is never given back: at every later moment of the run the unit has more reserved than ACTIVE reservations drew. |
| `Exhibits.FailedReserveLeavesDraw` | internal/application/usecases/reserve_stock.go:58-88 | A run from the empty warehouse in which it happens: a reserve saves one draw and fails, five of ten stay reserved with no reservation at all. |
| `Theorems.LifecycleKept` | internal/domain/stock/stock_unit.go:95-147 | In every interleaving AVAILABLE means nothing reserved, RESERVED means something is, REMOVED means exactly nothing on hand. |
| `Theorems.ResolvedExactlyOnce` | internal/application/usecases/revoke_reservation.go:39-57 | A reservation found resolved was resolved by exactly one step of the run, which settled units and bins, changed the status and published the event together. |
| `Theorems.ResolvedForGood` | internal/adapters/outbound/postgres/reservation_repo.go:38-74 | A reservation keeps its terms for good, and its status once it has left ACTIVE. |
| `Theorems.ReportedExactlyOnce` | internal/application/usecases/reservation_expiry.go:72-85 | The outbox reports each resolution once, as what it was, and reports none that did not happen. |
| `Theorems.StockLeavesByResolution` | internal/application/usecases/confirm_pick.go:48-94 | Reserved falls, or quantity changes, only in a step that resolves a reservation drawn on that unit. |
| `Theorems.ClearIsTheCheck` | internal/application/usecases/stow_stock.go:162-207 | The machine's stow step passes exactly when the segregation check over the occupants does. |
| `Theorems.SegregationSurvives` | internal/application/usecases/stow_stock.go:49-90 | With classifications fixed, no reachable state has two SKUs of incompatible classes in one bin, however stows race. |
| `Theorems.BinsConserved` | internal/adapters/outbound/postgres/location_repo.go:26-42 | In every interleaving a bin holds exactly the stock recorded in it, within capacity; a bin at its first version has never held any. |
| `Theorems.UnitsHaveBins` | internal/application/usecases/confirm_pick.go:85-90 | Every unit sits in a registered bin. |
| `Theorems.OutboxAccounts` | internal/adapters/outbound/postgres/outbox_publisher.go:53-80 | Per SKU and at every moment: stowed minus picked is on hand, picked is confirmed, and the reservations created, confirmed, revoked and expired are as many as the outbox reports of each. |
| `Theorems.UnitVersionsGrow` | internal/adapters/outbound/postgres/stock_repo.go:35-52 | A unit row stays, its version never goes back, and one version has one content. |
| `Theorems.UnitVersionChain` | internal/adapters/outbound/postgres/stock_repo.go:35-52 | Version n+1 of a unit is one operation of the aggregate performed on the content of version n. |
| `Theorems.ReservationVersions` | internal/adapters/outbound/postgres/reservation_repo.go:38-74 | A reservation row is at version 1 while ACTIVE and at version 2 for good once resolved. |
| `BinVersions.BinVersionStep` | internal/adapters/outbound/postgres/location_repo.go:26-42 | Each step leaves a bin row alone, moves its version by one, or, when it confirms a reservation, by exactly the number of its allocations in that bin; so it moves by more than one if and only if it confirms a reservation with two allocations there. |
| `BinVersions.BinVersionCounts` | internal/adapters/outbound/postgres/location_repo.go:26-42 | Over any stretch of a run a bin row stays, one version has one content, and the version has risen by exactly the saves committed. |
| `BinVersions.BinVersionsSkipIff` | internal/application/usecases/confirm_pick.go:48-93 | The committed versions of a bin are 1, 2, 3 and so on without a gap if and only if no reservation confirmed so far had two allocations in it. |
| `Exhibits.ConfirmationSkipsVersion` | internal/application/usecases/confirm_pick.go:48-93 | A run from the empty warehouse in which a version is skipped: two units of one bin are picked by one confirmation, and the bin goes from version 3 to 5. |
| `Theorems.ReservationVersionsGrow` | internal/adapters/outbound/postgres/reservation_repo.go:38-74 | A reservation row stays, its version never goes back, and one version has one content. |
| `Theorems.OneSavePerVersion` | internal/adapters/outbound/postgres/stock_repo.go:35-52 | Over a whole run at most one step takes a row from a given version to another: of several saves from one read version at most one succeeds. |
| `Theorems.BinStepIsOperation` | internal/adapters/outbound/postgres/location_repo.go:26-42 | A bin changes only by stock coming in, stock going out, or a new capacity around the same content. |
| `Theorems.RemovedForGood` | internal/domain/stock/stock_unit.go:124-141 | In every interleaving a unit picked out completely is final. |
| `RunAnswers.ResolvedInRun` | internal/application/usecases/confirm_pick.go:48-94 | Whatever else is going on, the step in which a reservation leaves ACTIVE takes its stock out or gives it back, unit by unit, with the states spelled out. |
| `RunAnswers.StepAnswers` | internal/adapters/outbound/postgres/unit_of_work.go:70-93 | Every step of every interleaved run is one of seven changes, each spelled out in quantities, states and events. |
| `LoneUseCases.LoneResolution` | internal/application/usecases/confirm_pick.go:48-94 | From an idle system, the statements of a resolution taken one after the other complete and are exactly the resolution, for any number of allocations. |
| `LoneUseCases.LoneReserve` | internal/application/usecases/reserve_stock.go:48-85 | The statements of a reserve for which enough is free complete and are exactly the new reservation, on any listing of the units. |
| `LoneUseCases.LoneStow` | internal/application/usecases/stow_stock.go:48-96 | The statements of a stow that passes its checks and fits complete and are exactly the stow. |
| `LoneUseCases.LoneCount` | internal/application/usecases/run_cycle_count.go:41-85 | The statements of a count complete and are exactly the count, on any listing of the bin's units. |
| `LoneUseCases.LoneRegistration` | internal/application/usecases/register_bin.go:66-94 | The statements of a registration that is not refused complete and are exactly the registration. |
| `Evolution.UnitsChangeByOperations` | internal/domain/stock/stock_unit.go:95-147 | Any legal change leaves each unit in place and alters it by at most one operation of its aggregate. |
| `Evolution.ResolutionIsWhole` | internal/application/usecases/reservation_expiry.go:72-85 | A reservation leaves ACTIVE only together with its whole resolution. |
| `JoinedScope.ResolveInScope` | internal/application/usecases/reservation_expiry.go:62-90 | Over version-guarded repositories that share an outer transaction, the loop of releases, the guarded save and the publication do exactly what the joined resolution is specified to do, with everything saved before an error left in place. |
| `JoinedScope.JoinedKeepsLedgerIff` | internal/adapters/outbound/postgres/unit_of_work.go:60-68 | For any lawful rows the outer transaction sees, whatever else it has staged: after its commit the ledger is covered, and every law holds, if and only if the reservation row is still the one that was read, or the first allocated unit already has less reserved than its allocation. |
| `JoinedScope.JoinedOverRuns` | internal/adapters/outbound/postgres/unit_of_work.go:60-68 | The same, for the ledger and for every law, at every moment of every interleaved run and for a reservation read at any earlier moment of it. |
| `JoinedScope.StaleJoinedExpiryOversells` | internal/adapters/inbound/http/idempotency.go:237-263 | A run from the empty warehouse after which it happens: an expiry that lost the race releases again, its save conflicts, the outer scope commits; five stay claimed with nothing reserved, where the ledger was exact before. |
| `UseCases.UsableInAnyOrder` | internal/application/usecases/get_usable.go:23-35 | Usable stock added up unit by unit is the same in any order of the units. |
| `Sequential.AllocatesLawful` | internal/application/usecases/reserve_stock.go:48-85 | A new reservation, draws and record together, keeps the ledger exact. |
| `Sequential.CallKeepsOrder` | internal/application/usecases/reserve_stock.go:117-151 | Every use case, run alone, keeps every law with no gap, at most one open reservation per demand, SKU and quantity, and every bin segregated. |
| `Sequential.CallRunOrderly` | internal/application/usecases/reserve_stock.go:117-151 | The same after every prefix of every sequence of use cases. |
| `Sweeps.ActiveResolves` | internal/application/usecases/confirm_pick.go:48-94 | No stuck resolution: on lawful books, giving back or picking an ACTIVE reservation meets no missing unit or bin and no short reserve or occupancy, and leaves exactly the resolution. |
| `Sweeps.SweepSettles` | internal/application/usecases/reservation_expiry.go:43-60 | The loop over allocations, one unit and bin at a time, settles all of them. |
| `Sweeps.SweepStops` | internal/application/usecases/reservation_expiry.go:43-60 | At the first error the loop stops, and what it had saved stays saved. |
| `CallPromises.ReleaseReturnsToUsable` | internal/application/usecases/reservation_expiry.go:43-60 | A revocation or expiry lowers each unit's reserved by exactly its allocation, leaves quantities and bins alone, and raises usable stock by the allocations on located units. |
| `CallPromises.ReserveThenRevoke` | internal/application/usecases/revoke_reservation.go:48-57 | Reserving and revoking restores every quantity and reserved part; the unit is fully restored if and only if it was not drawn on or was not PICKED. |
| `CallPromises.RetryReplays` | internal/application/usecases/reserve_stock.go:117-151 | On any orderly books that hold the open reservation, not run out when looked at, repeating its reserve returns that reservation and draws nothing; with nothing else due for the demand, nothing changes at all. |
| `CallPromises.RetryReplaysLater` | internal/application/usecases/reserve_stock.go:97-151 | Over any sequence of use cases, what a reserve returned is what every later repetition returns, as long as the reservation is neither resolved nor run out. |
| `CallPromises.ReserveFailsIffShort` | internal/application/usecases/reserve_stock.go:35-56 | Told from the books before the call: a reserve fails if and only if no open reservation still in time replays it and the quantity exceeds usable stock plus what the demand's due reservations of that SKU give back on located units; on failure exactly those expiries have happened. |
| `CallPromises.UsableAfterExpiry` | internal/application/usecases/reservation_expiry.go:100-109 | Expiring everything due for a demand, in whatever order, raises usable stock by the sum of what each gives back. |
| `CallPromises.CallKeepsRemoved` | internal/domain/stock/stock_unit.go:109-141 | No use case changes a removed unit; this rests on nothing being reserved on it, since release and pick do not look at the state. |
| `CallPromises.RemovedStaysRemoved` | internal/domain/stock/stock_unit.go:109-141 | Over any sequence of use cases a removed unit is final. |
| `Answers.ResolutionAnswers` | internal/domain/stock/stock_unit.go:107-141 | What a resolution does to each unit, bin, reservation and the log, in quantities and states: a picked unit ends REMOVED or PICKED whatever it was, a released one changes state only from RESERVED to AVAILABLE. |
| `Answers.ConfirmAnswers` | internal/application/usecases/confirm_pick.go:25-94 | A confirmation passes if and only if the reservation is ACTIVE and has run out at neither clock reading; each answer has its exact condition and its complete effect, a unit picked in part ending PICKED, from UNLOCATED too. |
| `Answers.RevokeAnswers` | internal/application/usecases/revoke_reservation.go:25-60 | A revocation passes if and only if the reservation is ACTIVE and has not run out; a late one expires it and is refused; each answer has its complete effect. |
| `Answers.DueAnswers` | internal/application/usecases/reservation_expiry.go:62-109 | Lazy expiry gives back exactly the ACTIVE reservations of the demand that had run out when looked at, one after the other, and does nothing else. |
| `Answers.ReserveAnswers` | internal/application/usecases/reserve_stock.go:35-151 | After the expiries a reserve returns the open reservation of exactly this demand, SKU and quantity if there is one in time; otherwise it claims free stock unit by unit in listing order if and only if the quantity is free, and says so if not. |
| `Answers.NewReservationLives` | internal/application/usecases/reserve_stock.go:15-85 | From the reserve to the confirmation: a new reservation can be confirmed up to thirty minutes after it was made, or up to the positive timeout given, and a later attempt gives its stock back. |
| `Answers.OneOpenReservation` | internal/application/usecases/reserve_stock.go:117-151 | After any sequence of use cases at most one reservation is open for the same demand, SKU and quantity. |
| `Answers.UsableIsFree` | internal/application/usecases/get_usable.go:23-35 | Usable stock is what is on hand, neither unlocated nor removed, and not reserved. |
| `Answers.StowAnswers` | internal/application/usecases/stow_stock.go:48-96 | A stow whose checks passed succeeds if and only if the quantity is positive and fits beside the stock recorded in the bin; BinFull means exactly that it does not fit; the new unit, the bin and both events are spelled out. |
| `Answers.StowCheckAnswers` | internal/application/usecases/stow_stock.go:98-207 | Both checks together: the placement refuses first, then exactly a unit of another SKU in the bin with an incompatible class does. |
| `Answers.RegisterAnswers` | internal/application/usecases/register_bin.go:48-94 | A registration is refused exactly without an id, without a capacity, or below the stock recorded in the bin; otherwise the bin ends with that capacity around what it held. |
| `CountAnswers.CountAnswers` | internal/application/usecases/run_cycle_count.go:33-131 | Any difference, over or short, is published as one DiscrepancyDetected and a completion saying so, agreement as a completion alone; a shortfall is published unit by unit under each unit's own SKU, comes to exactly what is missing, and flags exactly those units. |
| `Repositories.StockRepo.FindBySku` | internal/adapters/outbound/memory/stock_repo.go:42-52 | Exactly the stored units of the SKU, each once, in some order. |
| `Repositories.StockRepo.FindByBin` | internal/adapters/outbound/memory/stock_repo.go:54-64 | Exactly the stored units of the bin, each once, in some order. |
| `Repositories.StockRepo.NextId` | internal/adapters/outbound/memory/stock_repo.go:66-71 | Hands out an id not in use. |
| `Repositories.StockRepo.Save` | internal/adapters/outbound/memory/stock_repo.go:25-30 | Stores the object under its id; saving an object already stored changes nothing. |
| `Repositories.ReservationRepo.FindByDemandRef` | internal/adapters/outbound/memory/reservation_repo.go:42-52 | Exactly the reservations ever made for the demand, each once, in some order. |
| `Repositories.ReservationRepo.Save` | internal/adapters/outbound/memory/reservation_repo.go:22-27 | Stores the object under its id. |
| `Repositories.ReservationRepo.NextId` | internal/adapters/outbound/memory/reservation_repo.go:54-59 | Hands out an id not in use. |
| `Repositories.LocationRepo.Save` | internal/adapters/outbound/memory/location_repo.go:21-26 | Stores the object under its id. |
| `Repositories.LocationRepo.FindById` | internal/adapters/outbound/memory/location_repo.go:28-36 | The stored bin, or nothing. |
| `Warehouses.Warehouse.ReleaseAllocations` | internal/application/usecases/reservation_expiry.go:43-60 | The loop over objects changed in place does exactly what the specified sweep does, its errors and partial effects included. |
| `Warehouses.Warehouse.PickFromBin` | internal/application/usecases/confirm_pick.go:66-94 | One allocation picked: the unit, then its bin, stopping where the specified step stops. |
| `Warehouses.Warehouse.PickAll` | internal/application/usecases/confirm_pick.go:48-53 | The pick loop does exactly what the specified sweep does. |
| `Warehouses.Warehouse.ExpireIfDue` | internal/application/usecases/reservation_expiry.go:62-90 | A timed-out ACTIVE reservation is resolved as EXPIRED, without error; any other is left as it is. |
| `Warehouses.Warehouse.ExpireAllIfDue` | internal/application/usecases/reservation_expiry.go:100-109 | Exactly the reservations among those listed that are due by the clock reading taken for each are expired. |
| `Warehouses.Warehouse.Revoke` | internal/application/usecases/revoke_reservation.go:23-67 | The complete outcome of a revocation: unknown, already resolved, timed out and now expired, or given back whole. |
| `Warehouses.Warehouse.Confirm` | internal/application/usecases/confirm_pick.go:23-61 | The complete outcome of a confirmation with its two clock readings; a live reservation is picked whole. |
| `Warehouses.Warehouse.ActiveReservationFor` | internal/application/usecases/reserve_stock.go:117-138 | Due reservations of the demand are expired first; then an open one of the same SKU and quantity is found if and only if there is one. |
| `Warehouses.Warehouse.DrawUnits` | internal/application/usecases/reserve_stock.go:48-62 | Units are drawn on greedily in listing order and saved, or none is changed. |
| `Warehouses.Warehouse.Reserve` | internal/application/usecases/reserve_stock.go:35-95 | The complete outcome of a reserve: zero quantity, a replay, not enough stock, or a new reservation covering the quantity. |
| `Warehouses.Warehouse.CheckBin` | internal/application/usecases/stow_stock.go:162-207 | Fails exactly when some unit in the bin must be kept apart from the SKU. |
| `Warehouses.Warehouse.Stow` | internal/application/usecases/stow_stock.go:48-96 | The complete outcome of a stow, checks in order; on success unit, bin and both events are there, and bins stay segregated. |
| `Warehouses.Warehouse.RunCount` | internal/application/usecases/run_cycle_count.go:33-90 | The complete outcome of a count, decided from the bin's units in some order. |
| `Warehouses.Warehouse.RegisterBin` | internal/application/usecases/register_bin.go:54-99 | Created, unchanged or resized, never below what the bin holds. |
| `Warehouses.Warehouse.GetUsable` | internal/application/usecases/get_usable.go:23-35 | Usable stock of the SKU, whatever order its units come in. |
| `Warehouses.Warehouse.constructor` | internal/adapters/outbound/memory/stock_repo.go:21-23 | Newly made repositories hold nothing, and satisfy every law. |
| `Product.Placement` | internal/application/usecases/stow_stock.go:106-145 | Only a hazmat or temperature-sensitive product is ever refused. An unknown slot or an unwired lookup accepts it; each of the three errors is given exactly when the lookup is unavailable, the zone is not hazmat-rated, or its temperature class differs. |
| `Segregation.MirrorPairs` | internal/domain/product/segregation.go:152-160 | The matrix holds each listed pair in both orders and nothing else. |
| `Segregation.BuildMatrix` | internal/domain/product/segregation.go:134-160 | The matrix of the listed pairs decides incompatibility of real classes. |
| `Segregation.IncompatibleIsTable` | internal/domain/product/segregation.go:97-107 | The list of pairs is the documented 9 x 9 table, cell by cell. |
| `Segregation.LookUp` | internal/domain/product/segregation.go:171-181 | An unspecified or out-of-range class is compatible with everything; otherwise the matrix decides. |
| `Segregation.ApartIsSymmetric` | internal/domain/product/segregation.go:152-181 | Which SKU came first does not matter. |
| `Segregation.CheckSegregation` | internal/application/usecases/stow_stock.go:162-207 | The loop, each other SKU looked up once, fails exactly when some other SKU in the bin is incompatible. |
| `Relay.RelayIsFaithful` | internal/adapters/outbound/postgres/outbox_relay.go:146-240 | One relay, unlimited attempts, any failures and crashes: first arrivals are a prefix of the outbox in id order, and every row marked published has arrived. |
| `Relay.FaithfulIffUnlimited` | internal/adapters/outbound/postgres/outbox_relay.go:201-207 | That holds over all runs if and only if attempts are unlimited; with a limit a row that failed too often is overtaken. |
| `Relay.ClaimsOldest` | internal/adapters/outbound/postgres/outbox_relay.go:201-240 | A pass takes only unpublished rows with attempts left, and leaves one out only for a full batch of older ones. |
| `Relay.ClaimedAreDone` | internal/adapters/outbound/postgres/outbox_relay.go:201-240 | Publishing a claimed batch leaves exactly the eligible rows behind it. |
| `Relay.DrainedIsComplete` | internal/adapters/outbound/postgres/outbox_relay.go:146-197 | Once nothing is left to send, every row has arrived. |
| `Relay.ReachedByRun` | internal/adapters/outbound/postgres/outbox_relay.go:104-126 | What a pass or a drain reaches from a state of a run is again a state of a run, so every promise about runs holds of it. |
| `Relay.OutboxRelay.ClaimBatch` | internal/adapters/outbound/postgres/outbox_relay.go:201-240 | The oldest eligible rows, up to a batch. |
| `Relay.OutboxRelay.RelayOnce` | internal/adapters/outbound/postgres/outbox_relay.go:146-197 | A pass is a sequence of steps of the relay whatever the sends and the commit do; when all succeed exactly the claimed rows were sent and are published. |
| `Relay.OutboxRelay.Drain` | internal/adapters/outbound/postgres/outbox_relay.go:104-118 | With a working sink, passes on full batches end, and all eligible rows have been sent in order. |
| `Idempotency.StepKeeps` | internal/adapters/inbound/http/idempotency.go:103-132 | Every step of any number of requests keeps the protocol invariant, and committed rows never change. |
| `Idempotency.VisibleRowsHaveOutcomes` | internal/adapters/inbound/http/idempotency.go:216-263 | A visible key row always has its outcome. |
| `Idempotency.OneRunPerKey` | internal/adapters/inbound/http/idempotency.go:216-263 | For each key the writes of at most one handler run are ever committed, panics and failed commits included. |
| `Idempotency.AnswersAgree` | internal/adapters/inbound/http/idempotency.go:155-206 | All answers ever given for a key are the same response, to the same body. |
| `Idempotency.ReplaySucceeds` | internal/adapters/inbound/http/idempotency.go:155-206 | A replay never meets a missing or half-written row: it returns the stored response to the same body and refuses another. |
| `Idempotency.WaiterGoesOn` | internal/adapters/inbound/http/idempotency.go:110-132 | A waiting request goes on exactly when nobody holds its key, and runs afresh if and only if no run has been committed for it. |
| `Idempotency.RowsStayOverRun` | internal/adapters/inbound/http/idempotency.go:250-263 | Committed rows stay as they are for the rest of the run. |
| `Idempotency.ServedAgain` | internal/adapters/inbound/http/idempotency.go:103-263 | Two requests with one key: a first answer is repeated to the same body without a second run, another body is refused, and after a failure or a panic the second runs as if it were the first. |
| `Idempotency.Middleware.Serve` | internal/adapters/inbound/http/idempotency.go:75-274 | One request served from start to end is a run of the protocol, whichever uses of the database fail; a missing key or unreadable body is refused before it begins; a failure or panic leaves no row and no writes. |
| `FacilityCache.ZoneOfCode` | internal/adapters/outbound/facilitycache/consumer.go:564-570 | The zone of a code is its first three segments; a code with fewer has none. |
| `FacilityCache.ViewIsLast` | internal/adapters/outbound/facilitycache/consumer.go:485-558 | Every zone and slot entry is what the last event about it says. |
| `FacilityCache.LookupAnswers` | internal/adapters/outbound/facilitycache/consumer.go:392-405 | A bin is known if and only if its last registration stands and so does one of the zone it lies in; then it has that zone's hazmat mark and its temperature class if that is one of the three, otherwise nothing is known of it. |
| `FacilityCache.InterleavingsAgree` | internal/adapters/outbound/facilitycache/consumer.go:392-405 | When all events of one zone or slot share a partition, any two interleavings of the same partitions give every bin the same attributes, slots ahead of their zones included. |
| `FacilityCache.AgreeIffLastsAlike` | internal/adapters/outbound/facilitycache/consumer.go:485-558 | Every interleaving of the same partitions gives the same view if and only if, for each zone and slot, the last events about it in each of its partitions say the same. |
| `FacilityCache.SplitPartitionsDisagree` | internal/adapters/outbound/facilitycache/consumer.go:142-149 | Without a shared partition two interleavings can give one bin different attributes. |
| `FacilityCache.ReadyMeansCaughtUp` | internal/adapters/outbound/facilitycache/consumer.go:467-477 | Ready implies every message below each partition's captured end has been delivered. |
| `FacilityCache.PendingIffBehind` | internal/adapters/outbound/facilitycache/consumer.go:467-477 | Where the message below each captured end is still held: nothing is pending if and only if every message held below the ends has been delivered. |
| `FacilityCache.Consumer.constructor` | internal/adapters/outbound/facilitycache/consumer.go:216-237 | With nothing to catch up with the consumer is ready at once. |
| `FacilityCache.Consumer.MarkReady` | internal/adapters/outbound/facilitycache/consumer.go:352-360 | The ready channel is closed the first time only. |
| `FacilityCache.Consumer.Apply` | internal/adapters/outbound/facilitycache/consumer.go:485-558 | One event changes its own entry; an undecodable event or one with an empty required id changes nothing and is refused. |
| `FacilityCache.Consumer.Observe` | internal/adapters/outbound/facilitycache/consumer.go:467-477 | A partition leaves the target exactly when its end is reached; ready exactly when none is left. |
| `FacilityCache.Consumer.Consume` | internal/adapters/outbound/facilitycache/consumer.go:421-440 | A refused message is dead-lettered and observed all the same; once ready, always ready, and the latch closes once. |
| `FacilityCache.Consumer.Run` | internal/adapters/outbound/facilitycache/consumer.go:421-440 | After any messages the cache is the replay of all of them. |
| `FacilityCache.Consumer.GetSlotAttributes` | internal/adapters/outbound/facilitycache/consumer.go:392-405 | The join of slot and zone over all events seen. |
| `Projection.RowsAreSums` | internal/adapters/outbound/analyticsstore/memory_store.go:54-178 | Every cell of the report is the sum of the increments of the distinct events delivered; a row exists exactly if some event belongs to it. |
| `Projection.ReplayOfSameEvents` | internal/adapters/outbound/analyticsstore/memory_store.go:61-70 | Reordering and duplicating deliveries changes nothing: rows, ids and freshness depend only on the set of events. |
| `Projection.LatestIsMax` | internal/adapters/outbound/analyticsstore/memory_store.go:61-70 | The freshness watermark is the latest occurrence over all events applied. |
| `Projection.LagIsAge` | internal/adapters/outbound/analyticsstore/memory_store.go:217-233 | The lag is the age of the latest event delivered, zero before its time and when there is none. |
| `Projection.WindowsAddUp` | internal/adapters/outbound/analyticsstore/memory_store.go:183-212 | Windows [a, b) and [b, c) are disjoint and together give [a, c). |
| `ProjectionStores.MemoryStore.ApplyEvent` | internal/adapters/outbound/analyticsstore/memory_store.go:82-178 | Each of the nine methods applies its event once per id to its own row and metric. |
| `ProjectionStores.MemoryStore.RunQuery` | internal/adapters/outbound/analyticsstore/memory_store.go:183-212 | Exactly the selected rows, each once. |
| `ProjectionStores.MemoryStore.FreshnessLag` | internal/adapters/outbound/analyticsstore/memory_store.go:217-233 | Zero when nothing was applied, never negative, else the age of the newest event. |
| `ProjectionStores.PostgresProjection.ApplyDelta` | internal/adapters/outbound/analyticsstore/postgres_projection.go:74-85 | The claim and the increment commit together or not at all. |
| `ProjectionStores.PostgresProjection.ApplyEvent` | internal/adapters/outbound/analyticsstore/postgres_projection.go:88-130 | Each event takes the one path with its own row and increment. |
| `ProjectionStores.FeedBoth` | internal/adapters/outbound/analyticsstore/postgres_projection.go:74-161 | Nine methods in memory and one path in Postgres, fed the same deliveries, hold the same rows. |
| `ProjectionStores.AnalyticsConsumer.HandleMessage` | internal/adapters/inbound/kafka/analytics_consumer.go:168-195 | A message that does not decode is refused without a trace, an event outside the contract is ignored; otherwise the id is marked before the event is applied. |
| `ProjectionStores.StoreIsEffective` | internal/adapters/inbound/kafka/analytics_consumer.go:181-194 | The store is the replay of the deliveries that were first marked for their id and then applied. |
| `ProjectionStores.AppliedIffFirstSucceeds` | internal/adapters/inbound/kafka/analytics_consumer.go:181-194 | At most once under failure: an event is in the store if and only if the first delivery marked for it was also applied. |
| `ProjectionStores.FailedThenRedelivered` | internal/adapters/inbound/kafka/analytics_consumer.go:181-194 | The losing input: a failed apply followed by a redelivery that goes through leaves the event out of the store. |
| `ProjectionStores.NoFailureNoLoss` | internal/adapters/inbound/kafka/analytics_consumer.go:181-194 | With no failure the gate changes nothing. |
| `Reporting.ReportFollowsLog` | internal/adapters/outbound/analyticsstore/memory_store.go:82-178 | Delivered at least once in any order, each of the metrics of a SKU, and of a bin, is the tally of its own kind of event in the log. |
| `Reporting.RowFollowsLog` | internal/adapters/outbound/analyticsstore/memory_store.go:54-178 | Rows belong to full hours, and each cell is what the events filed under its SKU and bin within that hour add up to. |
| `Reporting.WindowFollowsLog` | internal/adapters/outbound/analyticsstore/memory_store.go:183-212 | A report for any window, SKU and bin adds up to the events whose hour starts in the window, closed at its start and open at its end. |
| `Reporting.SequentialReportMatches` | internal/adapters/outbound/kafka/analytics_publisher.go:186-255 | On every sequential run the report equals the ledger: reservations made, expired and revoked, and the quantity confirmed. |
| `Reporting.InterleavedReportMatches` | internal/adapters/outbound/kafka/analytics_publisher.go:186-255 | The same on every interleaved run, over the outbox. |
| `Reporting.RelayedPrefix` | internal/adapters/outbound/postgres/outbox_relay.go:146-240 | Replaying whatever a relay has delivered so far, failures and crashes included, gives the store of an exact prefix of the outbox. |
| `Reporting.RelayedReport` | internal/adapters/outbound/postgres/outbox_relay.go:146-240 | The report behind a relay in any reachable state is that of a prefix of the events, counted once each. |
| `Reporting.DrainedReportMatches` | internal/adapters/outbound/postgres/outbox_relay.go:104-126 | From interleaved use cases through outbox, relay and projection: once nothing is left to send, the report equals the ledger. |

## Left out

- Scopes that join an outer transaction: the interleaving theorems are for requests that own their transactions. With Postgres wired, a reserve over HTTP runs as a whole inside the middleware's transaction (`internal/adapters/inbound/http/server.go:136-146`), so every expiry it makes is a joined one and its draws become visible with its response. `JoinedScope` says what one joined expiry or revocation does to the ledger, as one step; a joined reserve as a request of the interleaving machine is not modelled.
- The revocation in `cmd/mcp/main.go:89`, which has no transaction at all.
- Machine integers: quantities are mathematical naturals, so the unchecked addition of `internal/domain/shared/quantity.go:29-31` cannot overflow here.
- Requests: a resolution may begin whatever the clock says, and a reserve whatever open reservations the demand has. The theorems then hold for more runs than the guards allow, but the machine says nothing of the replay guard under races, which the original documents as best effort.
- Requests: a reservation and its allocations are read in one step, and keep their order in storage; the original reads two tables and orders allocations by unit id.
- Requests: waiting for a row lock is a step that is not possible yet; deadlock detection and lock time-outs count as failures of a request.
- Generated ids are serial numbers, and never repeat. In the interleaving model a request's number is the id of what it creates.
- Legacy allocation rows without a bin id: allocations always record the unit's bin.
- Relay: one relay only, and outbox rows become visible in id order. Nothing is said of several relays at once, nor of transactions that commit out of id order.
- Idempotency.Middleware.Serve: a commit that fails is taken to have rolled back; key collisions of the hash are not modelled, a body stands for its own hash; the handler's writes are represented by the request's number.
- FacilityCache: dead-letter publishing, logging and the capture of target offsets from the broker are not modelled; the captured target is a parameter.
- Segregation: product reclassification after a stow. Nothing in the original re-checks bins, so classifications are fixed over a run.
- Requests: the outbox holds one entry per event; the original encodes each event once per topic and inserts one row per message (`internal/adapters/outbound/postgres/outbox_publisher.go:53-80`).
- ReceiveStock: it only publishes an event, which the laws of the ledger do not count.
- Reporting: a reservation lookup that fails while an event is encoded leaves the SKU empty in the original; here it always succeeds.
- Network, database and broker failures other than the ones named appear only as a request or pass that fails at some point.
- HTTP routing and problem documents, MCP tools, the web console, metrics, tracing and shutdown.
