# Verified models of the XLWMS fulfilment service

This project models the decision-making core of the fulfilment service in Dafny 4.11 and proves what its
protocols and algorithms promise. `dafny verify dfyconfig.toml` checks everything.

| files | what they model |
|---|---|
| `PackingModel`, `PackingChoice`, `PackingUnits`, `PackingVolume`, `PackingBuild` | the 3D packing planner: greedy corner placement, unit expansion and order, envelope geometry |
| `Reservation`, `ReservationSafety`, `ReservationLocks`, `ReservationDeadlock`, `ReservationCalls`, `ReservationCircles`, `ReservationRequest` | the inventory reservation protocol as interleaved read-committed transactions, its lock names, who can wait for whom, and its helper loops |
| `FulfillmentAudits` (modules `FulfillmentAudits` and `AuditLifecycle`), `PickupClassifier`, `TrackingQueue` | the audit table with its seven writers, the pickup classifier in its Go and SQL forms, the round-robin tracking queue |
| `OutboundMatcher`, `OutboundSync` | matching orders to outbound records; the hourly watermark sync |
| `FundsFlow` | the funds-flow snapshot replacement |
| `OrderRouting` | purchased-label evidence, automatic routing with its caches, approval by warehouse group |
| `WarehouseBinding` | save, verify, activate and pause under two revisions |
| `SkuVariants` | the one-`m` SKU neighbours |
| `ShopIdentity` | the stored form of platform and shop code |
| `Text`, `Sorting`, `FiniteSum`, `Wrappers` | trimming, case, byte order and byte length of strings; sorting by a strict order; sums over finite sets; optional values |

## How the model relates to the code

* Tables are maps, statements are atomic steps. A row is a value; a store, a package under construction or a
  queue cursor is a class whose methods update it, each proved against a function of the old state.
* In the reservation protocol every transaction keeps its writes private until it commits, its rows stay locked
  against other writers until then, an abort drops them, and advisory locks are exclusive and held to the end.
  An abort may happen anywhere. Every transaction brings its own clock reading. A transaction waits for another
  one when its next statement needs an advisory lock the other holds or a row the other has written.
* Lengths are integers in 0.001 cm and weights integers in grams. There the planner's length and weight
  tolerances are exact comparisons and the final rounding to three decimals is the identity (the utilisation
  percentage is kept unrounded). Its volume tolerance of 0.000001 cm³ is 1000 volume units and is kept.
* Times are integers in seconds. Text is a sequence of characters compared in byte order; trimming follows
  Unicode white space, case folding is ASCII. Lengths the code takes in bytes are UTF-8 lengths; the planner's
  limit of 255 on a SKU is one of them, although its error message speaks of characters.
* Hashes are injective, snapshot tokens fresh, and answers of remote services are parameters.

## Findings

* **Least corner.** The planner promises the candidate with the least added volume, but compares volumes with a
  tolerance. For specifications on a grid of `step` units every step of every plan is the exact least one if and
  only if `step > 10`, that is for lengths on a grid coarser than 0.01 cm (`PackingBuild.EveryPlanLeastExactly`; the
  failing request, a tall box and a cube, is `BoxAndCube`, and `CubeNotLeast` shows what goes wrong).
* **Retry after expiry.** With the registered warehouse codes the advisory locks alone never close a circle of waits,
  whatever expires (`ReservationDeadlock.RegisteredNoWaitCycle`), but row waits can. A call for an order whose reservation has expired marks the
  expired row (lines 72-76 of `inventory_reservations.go`) before it takes the row's resource lock (lines 85-97).
  Another call for the same SKU can hold that lock and wait for the row, so that the two wait for each other until
  the database aborts one (`ReservationCircles.StaleRowCircle`). For the registered warehouses, over all runs from any
  table of known rows, receivable calls at a set of clock readings never wait in a circle if and only if no stored reservation has
  expired by any of the readings and no two readings are 24 hours or more apart
  (`ReservationCircles.RegisteredCircleFreeExactly`). Capacity safety holds in any case.
* **Lock names.** A lock name joins warehouse code and SKU with `|`. For registries in general, lock waits alone never
  close a circle if and only if no warehouse code is another one, the separator, and nothing or a text that does not
  begin with a space (`ReservationCircles.LockCircleFreeExactly`). No registered code contains the separator, so this
  does not occur today; it would take a new warehouse code.
* **Two saves, one winner.** Of two binding saves quoting the same revisions at most one commits, except when the
  first saves an empty id and an empty name where no binding exists: that commits without writing a row, any number
  of times (`WarehouseBinding.SecondSaveConflicts`, both directions). The HTTP handler rejects an empty id before it.

## Model

| member | source | states |
|---|---|---|
| PackingUnits.ValidateRequest | internal/packing/planner.go:110-137 | accepts exactly the requests with 1 to 40 lines, each a non-blank SKU of at most 255 bytes with positive quantity, and at most 300 units in all |
| PackingUnits.ResolveUnits | internal/packing/planner.go:192-231 | succeeds exactly when every requested SKU has a complete positive specification, and then returns the expansion of the summed quantities |
| PackingUnits.Quantities | internal/packing/planner.go:193-201 | SKUs in order of first mention, each with its quantity over all lines |
| PackingUnits.SpecsBySku | internal/packing/planner.go:202-205 | the last specification of a SKU is the one used |
| PackingUnits.UnitsForExact | internal/packing/planner.go:207-230 | the units are exactly ordinals 1..quantity of every requested SKU, no SKU and ordinal twice |
| PackingUnits.UnitIdInjective | internal/packing/planner.go:221 | `sku#k` identifies SKU and ordinal, whatever characters the SKU contains |
| PackingUnits.BeforeStrictOrder | internal/packing/planner.go:384-399 | the packing order is a strict total order on distinct units |
| PackingUnits.SortUnitsSorted | internal/packing/planner.go:384-399 | the sorted units are a permutation of the input in strict packing order |
| PackingUnits.BulkiestFirst | internal/packing/planner.go:384-399 | sorted units come in falling volume, equally bulky ones in falling weight |
| PackingUnits.SortedUnique | internal/packing/planner.go:384-399 | two strictly sorted sequences of the same units are equal |
| PackingUnits.PackingOrderIndependent | internal/packing/planner.go:150-154 | requests with the same quantity per SKU resolve alike and give the same packing order |
| PackingChoice.CornerPositions | internal/packing/planner.go:252-265 | the loop with its seen-set collects the corner list |
| PackingChoice.CornersExact | internal/packing/planner.go:252-265 | the list holds exactly the three corners of every placement, each position once |
| PackingChoice.IntersectsAnyScan | internal/packing/planner.go:355-367 | reports whether the box overlaps any placement |
| PackingChoice.BestPlacement | internal/packing/planner.go:247-291 | the search loop finds the scan's best candidate, and nothing when the package would be too heavy |
| PackingChoice.BestExistingPackage | internal/packing/planner.go:233-245 | the loop over packages finds the scan's best package and candidate |
| PackingChoice.BestCornerFeasible | internal/packing/planner.go:266-290 | for any tolerance, a candidate is found exactly when some corner is feasible, and it is the candidate of a feasible corner |
| PackingChoice.BestExistingFeasible | internal/packing/planner.go:233-245 | an existing package is chosen exactly when some package has a feasible corner |
| PackingChoice.BetterIsExact | internal/packing/planner.go:293-312 | with the tolerance below the grid's cell volume, the comparison is the exact lexicographic order |
| PackingChoice.PrecedesStrictOrder | internal/packing/planner.go:293-312 | the exact order is a strict weak order; ties share the position |
| PackingChoice.BestCornerLeast | internal/packing/planner.go:266-290 | on such a grid the corner chosen inside a package is least in that order |
| PackingChoice.BestExistingLeast | internal/packing/planner.go:233-245 | on such a grid the choice is least over all feasible corners of all packages, strictly so against earlier packages |
| PackingChoice.ToleranceHidesLeastCorner | internal/packing/planner.go:293-312 | a box and a cube for which the tolerance hides the least added volume |
| PackingChoice.LeastExactlyAboveTolerance | internal/packing/planner.go:293-312 | with the planner's tolerance the choice in a package is least for all packages and units on a grid if and only if the grid is coarser than 0.01 cm |
| PackingVolume.CellCount | internal/packing/planner.go:413-415 | a box covers as many unit cells as its volume |
| PackingVolume.DisjointBoxesFit | internal/packing/planner.go:355-375 | pairwise disjoint boxes inside an envelope have at most its volume |
| PackingBuild.PackageState.AddPlacement | internal/packing/planner.go:314-328 | appends the placement with the next step number and takes over bounds, weight and volume |
| PackingBuild.PlaceUnit | internal/packing/planner.go:167-173 | one pass of the main loop on the mutable packages is one step of the fold |
| PackingBuild.Build | internal/packing/planner.go:139-190 | returns a plan exactly for valid, resolvable requests, and it is the plan of the sorted units |
| PackingBuild.GeometryExtended | internal/packing/planner.go:355-375 | adding a non-overlapping box keeps boxes disjoint and inside, and the bounds tight on all three faces |
| PackingBuild.PlaceKeepsValid | internal/packing/planner.go:160-174 | every step keeps every package disjoint, tight, within size and weight limits, and correctly totalled |
| PackingBuild.UtilizationAtMostFull | internal/packing/planner.go:330-353 | the used volume never exceeds the envelope volume |
| PackingBuild.PackConserves | internal/packing/planner.go:160-174 | every unit is placed once or left out once, and exactly the oversized units are left out |
| PackingBuild.PackTotals | internal/packing/planner.go:176-188 | units, weight and volume requested equal those packed plus those left out |
| PackingBuild.EveryChoiceLeast | internal/packing/planner.go:167-173 | after any units, the next one goes to the least feasible corner, and a package is opened exactly when there is none |
| PackingBuild.CubeNotLeast | internal/packing/planner.go:293-312 | on a finer grid the plan for a tall box and a cube puts the cube beside the box although on top of it less volume is added |
| PackingBuild.EveryPlanLeastExactly | internal/packing/planner.go:160-174 | every step of every plan for specifications on a grid goes to the least feasible corner if and only if the grid is coarser than 0.01 cm |
| PackingBuild.PlanPackagesSound | internal/packing/planner.go:176-188 | every package of every plan is disjoint, tight, within the limits and at most 100% full |
| PackingBuild.PlanAccountsForEveryUnit | internal/packing/planner.go:139-190 | the placements of the returned packages and the units left out are together every requested unit exactly once, under distinct ids, and the summary adds up |
| PackingBuild.PlanDependsOnQuantitiesOnly | internal/packing/planner.go:139-231 | permuting, splitting or merging request lines gives the identical plan |
| ShopIdentity.Normalize | internal/store/inventory_thresholds.go:29-57 | accepts exactly the known platforms and shop codes made of words joined by single dashes, folded to lower case |
| ShopIdentity.IdentityIdempotent | internal/store/inventory_thresholds.go:29-57 | a stored identity is its own normal form |
| ReservationRequest.Normalize | internal/store/inventory_reservations.go:204-252 | accepts exactly the well-formed, recently observed requests and returns one line per SKU in SKU order with summed quantity and least observation |
| ReservationRequest.NormalizedIsValid | internal/store/inventory_reservations.go:204-252 | a normalised request has distinct SKUs with positive quantities |
| ReservationRequest.ReservationResources | internal/store/inventory_reservations.go:284-308 | returns every resource of the request and of the stored rows, each once, in key order |
| ReservationRequest.CollectResources | internal/store/inventory_reservations.go:285-297 | keying the map by the composed text drops no resource |
| ReservationRequest.SameInventoryReservation | internal/store/inventory_reservations.go:310-325 | comparing the sorted lists position by position decides whether stored and requested reservation are the same set of rows |
| ReservationLocks.ResourceKeyInjective | internal/store/inventory_reservations.go:286-289 | the length-prefixed key identifies code and SKU |
| ReservationDeadlock.BlockedExactlyWhenWaiting | internal/store/inventory_reservations.go:68-202 | a transaction waits for another one's lock or row exactly when all it could do is abort |
| ReservationDeadlock.SomeoneMoves | internal/store/inventory_reservations.go:68-202 | as long as no circle of waits exists, some open transaction can take its next step |
| ReservationDeadlock.NoWaitCycle | internal/store/inventory_reservations.go:68-102 | over every run, whatever expires: order lock first and resource locks in key order admit no circle of waits for advisory locks, where lock names tell the resources in play apart |
| ReservationDeadlock.RegisteredNoWaitCycle | internal/store/inventory_reservations.go:68-102 | for the registered warehouses they admit none, for any SKUs |
| ReservationDeadlock.CirclesOnlyAfterExpiry | internal/store/inventory_reservations.go:68-102 | over every run, transactions wait in a circle only if a Reserve on it found an active row of its own order expired by its clock |
| ReservationLocks.SeparableUnambiguous | internal/store/inventory_reservations.go:86 | lock names tell trimmed SKUs of these warehouse codes apart where no code extends another one |
| ReservationCalls.ReceivableSkus | internal/store/inventory_reservations.go:204-252 | a received request names a known order and, for a registered warehouse, trimmed distinct SKUs |
| ReservationCalls.CallReceived | internal/store/inventory_reservations.go:204-252 | the calls the circles below are built from come out of normalisation |
| ReservationCircles.StaleRowCircle | internal/store/inventory_reservations.go:72-97 | from every table with an expired row, some receivable calls end up waiting for each other: one holds the row's resource, the other has expired the row |
| ReservationCircles.SharedNameCircle | internal/store/inventory_reservations.go:85-88 | with a code that extends another one, two receivable calls end up waiting for each other's resource locks, whatever has expired |
| ReservationCircles.LockCircleFreeExactly | internal/store/inventory_reservations.go:68-102 | no run of receivable calls reaches a circle of lock waits if and only if no registered code extends another one |
| ReservationCircles.CircleFreeExactly | internal/store/inventory_reservations.go:68-202 | no run of receivable calls at these clocks reaches any circle of waits if and only if, besides, no reservation can expire meanwhile |
| ReservationCircles.RegisteredCircleFreeExactly | migrations/002_fulfillment_warehouses.sql:10-17 | for the registered warehouses: if and only if no reservation can expire meanwhile |
| ReservationSafety.CommitLeavesUndisturbed | internal/store/inventory_reservations.go:68-102 | a committing transaction cannot change what another one relies on under its locks |
| ReservationSafety.CheckKeeps | internal/store/inventory_reservations.go:118-134 | the capacity statement counts every other active row, because the expired ones are gone |
| ReservationSafety.CommitWithinBounds | internal/store/inventory_reservations.go:136-167 | a commit leaves every resource within the last observation it was reserved against |
| ReservationSafety.StepKeepsInv | internal/store/inventory_reservations.go:48-202 | every statement, commit and abort keeps the protocol invariant |
| ReservationSafety.NeverOversold | internal/store/inventory_reservations.go:48-202 | over every interleaving, clock order and abort, active quantity never exceeds what the last reservation created on the resource observed |
| ReservationSafety.OnlyCreationRaises | internal/store/inventory_reservations.go:72-117 | prolonging, expiring, releasing and aborting never raise an active quantity |
| ReservationSafety.SecondReadCovered | internal/store/inventory_reservations.go:80-102 | at the second read every active row of the order was in the first read, is unexpired and lies on a locked resource |
| ReservationSafety.CommittedReserve | internal/store/inventory_reservations.go:103-169 | a committed reservation leaves exactly the requested rows active, with the requested quantities, for a full period |
| ReservationSafety.CommittedRelease | internal/store/inventory_reservations.go:171-202 | a committed release leaves no active row of the order |
| FulfillmentAudits.AuditStore.ReplaceSnapshot | internal/store/fulfillment_audits.go:84-192 | folds platform and shop, trims and cleans the items, rejects invalid snapshots without a change, otherwise upserts in order and sweeps |
| FulfillmentAudits.AuditStore.ResolveManually | internal/store/fulfillment_audits.go:478-513 | resolves exactly active problem rows, given a valid terminal status and a note of 1 to 500 characters |
| AuditLifecycle.StatementKeepsRow | internal/store/fulfillment_audits.go:122-541 | each statement keeps every consistent row consistent and a terminal status unchanged |
| AuditLifecycle.LifecycleInvariant | internal/store/fulfillment_audits.go:122-541 | in every reachable table: active iff unresolved; active rows are neither terminal, outbound nor picked up; outbound rows are archived and not terminal |
| AuditLifecycle.TerminalForever | internal/store/fulfillment_audits.go:487-513 | once terminal, a row keeps its status and is never active again |
| AuditLifecycle.SnapshotDecidesActive | internal/store/fulfillment_audits.go:84-192 | after a shop snapshot a row of the shop is active iff it is listed and neither terminal, outbound nor picked up; other shops are untouched |
| AuditLifecycle.SnapshotIdempotent | internal/store/fulfillment_audits.go:84-192 | the same snapshot applied again changes nothing |
| AuditLifecycle.SnapshotKeepsConsistent | internal/store/fulfillment_audits.go:121-187 | a whole snapshot is a run of its statements and keeps the row invariant |
| AuditLifecycle.RefreshMatchesGo | internal/store/fulfillment_audits.go:330-378 | a stored Go classification refreshed in SQL reads as if Go had classified at the refresh |
| PickupClassifier.TrackingResolution | internal/auditor/tracking.go:153-229 | the nested loops compute the picked-up count, the failure flag, the first latest event and the latest pickup time, and the verdict that follows |
| PickupClassifier.ScannedNext | internal/auditor/tracking.go:186-210 | one event updates latest event, latest pickup and failure correctly |
| PickupClassifier.RefreshesAgree | internal/auditor/tracking.go:231-257 | any sequence of SQL refreshes ends in the Go verdict at the last refresh time |
| PickupClassifier.StoredReasonLosesNothing | internal/store/fulfillment_audits.go:353-378 | classify in Go once, refresh in SQL at any times: the verdict equals Go's for the same events at the last time |
| PickupClassifier.FailedQueryKeepsVerdict | internal/auditor/tracking.go:165-169 | a failed query keeps the remembered pickup failure |
| TrackingQueue.Queue.Candidates | internal/store/fulfillment_audits.go:252-281 | a batch is the first `limit` eligible ids after the cursor, wrapping around |
| TrackingQueue.Queue.Advance | internal/store/fulfillment_audits.go:308-328 | the cursor moves to the last id of a non-empty batch, whose next cursor that is |
| TrackingQueue.CompleteBatch | internal/store/fulfillment_audits.go:294-306 | the next cursor is the last id; the batch wrapped iff it holds an id not after a positive cursor |
| TrackingQueue.RotatedOrder | internal/store/fulfillment_audits.go:266-271 | the rotation is the order of the two sort keys and loses no id |
| TrackingQueue.MissedComesCloser | internal/store/fulfillment_audits.go:252-328 | a batch missing an eligible id brings the cursor at least `limit` closer to it on the circle |
| TrackingQueue.EligibleEventuallyServed | internal/store/fulfillment_audits.go:252-328 | an id eligible in every batch is served within bound / limit batches, however the eligible set changes |
| TrackingQueue.FixedSetServed | internal/store/fulfillment_audits.go:252-328 | a fixed set of n ids is fully served by ceil(n / limit) batches |
| OutboundMatcher.MatchIndexedOutboundRecords | internal/auditor/service.go:488-523 | the two-map loop returns each item's match |
| OutboundMatcher.PreferredRecord | internal/auditor/service.go:525-551 | the selection loops return the scan's pick |
| OutboundMatcher.PreferIsRank | internal/auditor/service.go:553-577 | the pairwise preferences are comparisons of (warehouse match, priority) and of (priority, warehouse match) |
| OutboundMatcher.PickIsFirstBest | internal/auditor/service.go:491-551 | the pick is the first record of highest rank among those carrying the key, although a record may be listed several times |
| OutboundMatcher.MatchIsLinearScan | internal/auditor/service.go:488-562 | the match is the better of the two first-best records, the reference on ties |
| OutboundSync.SyncStore.SyncAccount | internal/auditor/service.go:336-357 | the loop saves hour after hour from the cursor until a failure |
| OutboundSync.SyncStore.SyncOutboundOrders | internal/auditor/service.go:326-360 | the loop over the credentials is one sync after the other, passing over accounts whose watermark cannot be read |
| OutboundSync.SaveKeepsCovered | internal/store/outbound_index.go:35-68 | saving an adjacent hour keeps the windows aligned and the coverage gapless |
| OutboundSync.SyncsKeepCoverage | internal/auditor/service.go:326-360 | over any syncs and failures all windows are whole aligned hours, watermarks never fall, and no hour from coverage start to watermark is missing |
| OutboundSync.CleanSyncCatchesUp | internal/auditor/service.go:326-360 | a sync without failures reaches the last whole hour, whatever failed before |
| FundsFlow.FlowStore.ReplaceSnapshot | internal/store/sync.go:17-81 | succeeds exactly when locked and every record belongs to the normalised warehouse; otherwise nothing changes |
| FundsFlow.ReplacedAt | internal/store/sync.go:36-76 | afterwards the keys are exactly (payload, 1..count), surviving keys keep their detail progress, other warehouses are untouched |
| FundsFlow.RowsAreTheRecords | internal/store/sync.go:35-76 | the rows counted by payload are exactly the fetched records |
| FundsFlow.ReplacedIgnoresOrder | internal/store/sync.go:35-76 | the order of the fetched records does not matter |
| FundsFlow.ResyncKeepsProgress | internal/store/sync.go:54-76 | repeating a resync only renews the snapshot token |
| OrderRouting.MergeAuthoritative | internal/httpapi/platform_order_automation.go:465-482 | per order: the other platforms' evidence in order, followed by the authoritative answer |
| OrderRouting.MergeIdempotent | internal/httpapi/platform_order_automation.go:465-482 | merging twice is merging once, and the platform's evidence is then the authoritative one only |
| OrderRouting.PurchasedLabelWarehouse | internal/httpapi/platform_order_automation.go:493-519 | the loop decides the purchase |
| OrderRouting.PurchasedMeans | internal/httpapi/platform_order_automation.go:493-519 | a purchase is accepted exactly when some evidence is usable, all usable evidence names one warehouse, and every carrier is allowed there |
| OrderRouting.RawCarrierCheck | internal/httpapi/platform_order_automation.go:512-517 | the second carrier check never fires after the first one passed |
| OrderRouting.FillAccess | internal/httpapi/platform_order_automation.go:339-369 | filling the account caches keeps them equal to the cache-free answers |
| OrderRouting.FillChannel | internal/httpapi/platform_order_automation.go:384-400 | filling the channel cache keeps it equal to the cache-free answers |
| OrderRouting.DecideOne | internal/httpapi/platform_order_automation.go:313-411 | a decision from the caches is the cache-free decision |
| OrderRouting.ResolveRoutes | internal/httpapi/platform_order_automation.go:282-414 | the loop returns the cache-free decisions, and an error exactly when some order needs channels that cannot be read |
| OrderRouting.EveryOrderOnce | internal/httpapi/platform_order_automation.go:313-412 | every order is in exactly one of routes and unresolved |
| OrderRouting.RoutedToPurchasedWarehouse | internal/httpapi/platform_order_automation.go:320-410 | a routed order goes to the one warehouse its usable evidence names, with allowed carriers |
| OrderRouting.SameWarehouseSameChannel | internal/httpapi/platform_order_automation.go:384-410 | two routes with the same warehouse code carry the same channel |
| OrderRouting.GroupRoutes | internal/httpapi/platform_order_automation.go:160-163 | each group holds exactly the routes of its warehouse code, in order |
| OrderRouting.FirstChannelServesGroup | internal/httpapi/platform_order_automation.go:172-185 | the first route's channel is the channel of every route in its group |
| WarehouseBinding.Store.SaveWarehouseBinding | internal/store/warehouse_management.go:42-97 | saves under both revisions or changes nothing |
| WarehouseBinding.Store.SaveWarehouseVerification | internal/store/warehouse_management.go:98-127 | records a verification for the quoted revisions |
| WarehouseBinding.Store.ActivateWarehouseBinding | internal/store/warehouse_management.go:128-169 | enables binding and warehouse for the quoted revisions or changes nothing |
| WarehouseBinding.Store.PauseFulfillmentWarehouse | internal/store/warehouse_management.go:170-193 | pauses the warehouse for the quoted revision |
| WarehouseBinding.EnabledIsVerified | internal/store/warehouse_management.go:42-193 | in every reachable state an enabled binding is verified and names a non-empty platform id no other binding of the shop uses |
| WarehouseBinding.RunLater | internal/store/warehouse_management.go:42-193 | revisions never fall, and an unchanged revision means an unchanged platform warehouse |
| WarehouseBinding.ActivatedIdWasChecked | internal/store/warehouse_management.go:128-169 | whatever happens in between, the id that goes live is the id that was checked |
| WarehouseBinding.SecondSaveConflicts | internal/store/warehouse_management.go:42-97 | of two saves quoting the same revisions at most one commits, if and only if the first save is not an empty one on a missing row |
| SkuVariants.OneMVariants | internal/store/warehouse_sku_specs.go:186-216 | returns, without duplicates, exactly the non-empty strings one letter m away |
| SkuVariants.CompatibleOneMSpec | internal/store/warehouse_sku_specs.go:218-233 | succeeds exactly when one neighbour has a complete specification, and lists all of them |

## Left out

- HTTP handlers, JSON, scheduling loops, logging, configuration and migrations carry no hard property.
- PostgreSQL itself: the order in which one statement locks its rows, its deadlock detection, lock-hash collisions and collation. A statement waits until no other open transaction has written its rows.
- The warehouse, shop and binding check at the start of a reservation, with its shared row locks: `ReservationCalls` takes every known shop as bound to every registered warehouse.
- Reservation columns nothing reads (`created_at`, `updated_at`, `released_at`, `observed_at`).
- Integer overflow of summed quantities.
- IEEE rounding of lengths and weights, and inputs finer than 0.001 cm or 1 g.
- PackingUnits.SortUnitsSorted: the library's stable sort is taken as an insertion sort; `SortedUnique` shows that any sorted permutation is the same sequence.
- Case folding of non-ASCII text and invalid UTF-8.
- The texts of error messages and reasons; `ResolveUnits` and `ValidateRequest` report success or failure only.
- Display fields of a tracking resolution (joined tracking numbers) and status normalisation: events carry their normalised status.
- Audit columns no statement reads back (`shop_name`, platform status, `last_seen_at`, `updated_at`, outbound number, sync error, terminal note).
- That `outbound` is absorbing: an OMS resolution computed earlier can overwrite it.
- Historical backfill of outbound windows: it can move the watermark past a failed forward window.
- OutboundSync.SyncStore.SyncAccount: the records saved with a window are not modelled.
- The workers that query carriers in parallel: their updates are separate statements of the audit lifecycle.
- Fallback to cached evidence when a label service fails, and the counting of confirmed approvals.
- OrderRouting.PurchasedLabelWarehouse: warehouse key and code are compared as a pair, so codes containing a NUL character are not modelled.
- Legacy import of bindings and the checks behind a readiness verdict; the verdict is a parameter.
- List, filter, pagination and dashboard queries, carrier policies, inventory decisions, rate limiters, the superseded Python client.
