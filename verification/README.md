# Verified model of the commerce back end

This project models a shop's back end in Dafny: stock that is reserved and settled, checkouts and payments that call it over
an unreliable network, the worker that repeats what failed, refunds and the webhooks that report on them, media clean-up,
the catalog and its cache, the homepage editor, and shipments. The theorems speak about every run: any interleaving of
callers, with replies lost, writes lost and passes cut short.

How things are represented:

- A SQL transaction is one atomic step; an error restores the rows it started from. Tables are maps or sequences of
  row values, and the repository classes update such a table field in place.
- A remote call or write has three outcomes (`Delivery`): acknowledged, carried out with the reply lost (the 900 ms
  abort), not carried out.
- Time is a natural number of milliseconds. Random UUIDs are parameters. Hashes are compared as the values they cover.
- Where the code is a class with methods, so is the model: each method is proved equal to a step function, and the laws
  are proved about runs of those functions in any order. The loops of the services (payment run, worker batch, webhook
  pass, media pass, row grouping) are methods with invariants, equal to a schedule of steps.
- Where a promise is false of the code, the code is kept. One lemma gives an input that breaks it, another says of all
  inputs when it is kept: for a step, and for a run as "at every point of the run if and only if at every step".

## What was found

- With two batches of one SKU in a warehouse, a try takes from the row with the most to sell and the settle calls write the
  oldest row. A cancel undoes its try if and only if these are the same row (`InventoryBatches.CancelUndoesTry`). What a
  younger row reserves is never given back (`InventoryBatches.YoungerRowsKeep`), and the oldest row falls short by exactly
  that much (`InventoryBatches.OldestRowPays`): a reservation may be refused both ways until another try pays for it
  (`InventoryBatches.OneMoreTryPays`).
- The floor check of the Postgres update fires only for a confirm that asks for more than is available, which an adjustment
  below the reserved quantity brings about (`Inventory.FloorHoldsExactly`, `Inventory.AdjustmentBelowReserved`).
- A failed checkout leaves stock reserved exactly when the failing try was carried out behind a lost reply, a cancel call
  was not carried out, or, with several batches, its tries took more from younger rows than the oldest row of their key had
  reserved before: then a delivered cancel is refused (`CheckoutBatches.AllOrNothingInBatches`, for cancels arriving in any
  order; `CheckoutBatches.DeliveredCancelRefused`). With one item per SKU and warehouse only the first two can happen
  (`Checkout.AllOrNothing`).
- Exactly-once effect fails in memory when a try refused for shortage has created the item that is then adjusted
  (`InventoryReplay.ExactlyOnceEffect`).
- Claims of one compensation task can overlap after a re-enqueue. A retried failure then fails to use up a retry exactly
  when its claim has seen fewer attempts than the row has by now (`CompensationQueue.RetriesCountExactly`,
  `CompensationQueue.OverlappingClaimsRetryTwice`).
- A task whose claim is abandoned, by a crash or an ended pass, stays in `processing` until it is enqueued again: the worker
  never takes it back (`CompensationWakes.BecomesDueExactly`).
- The worker never moves an order out of `compensating`, even when every task of it is completed
  (`Saga.OnlyRunsMoveOrders`).
- A provider refund event is matched by provider refund id without the provider, so it can revive a failed refund of
  another provider. The refund cap survives exactly the events whose revived refunds still fit their payments
  (`RefundLaws.CapThroughoutExactly`); a reachable ledger on which it breaks is `RefundSharedId.SharedIsReached`.
- Payment statuses stop agreeing with completed refunds after a late `pending` result, a `completed` result or an event on a
  shared id; each has its condition (`RefundAgreement.PendingResultExactly`, `RefundAgreement.CompletedResultExactly`,
  `RefundAgreement.EventExactly`).
- The refund quote is not what a claim accepts when the capture id is missing, or when the latest payment is refunded
  and an older one still has room (`RefundQuote`).
- The two-observation rule of media deletion is about the task, not its objects: objects enqueued after the first
  observation are deleted after a single look (`MediaLaws.SeenTwiceSinceEnqueueExactly`). A resolved or cleaned task is
  reopened exactly when the reply to its completing write was lost (`MediaLaws.TerminalLeftExactly`).
- A save of categories or regions drops two cache keys whose queries it cannot change
  (`CatalogStale.FacetSavesKeepProducts`). A failed key deletion, or a read stored after a commit, leaves a stale entry
  exactly when the inputs say something new about what the entry shows (`CatalogStale.FailedDeleteExactly`,
  `CatalogStale.LateReadExactly`, `CatalogStale.LateSnapshotExactly`). A product with two SKUs is listed with the code, price,
  currency and origin of its first one and the package and weight of its last, in whatever order the query returns the rows
  (`CatalogSkus.OneSkuExactly`, `CatalogSkus.TwoSkusListed`).

## Files

- Inventory: `Inventory`, `InventoryReplay`, `InventoryTables`, `InventoryBatches`, `InventorySteps`, `InventoryBackend` (either
  store behind one interface), `InventoryStores`.
- Orders and compensation: `OrderState`, `CompensationQueue`, `CompensationWakes`, `Saga`, `SagaQueue`, `OrderService`, `WorkerService`,
  `Checkout`, `CheckoutBatches`, `Keys`.
- Payments: `Refunds`, `RefundLaws`, `RefundStatuses`, `PaymentSteps`, `RefundAgreement`, `RefundSharedId`, `RefundQuote`, `RefundStore`, `WebhookInbox`,
  `WebhookService`, `WebhookOutcomes`, `PayPalAmount`.
- Media: `MediaReconciliation`, `MediaSteps`, `MediaLaws`, `MediaService`.
- Catalog: `CatalogTables`, `CatalogGrouping`, `CatalogSkus`, `CatalogCache`, `CacheSteps`, `CatalogOffers`, `CatalogCards`,
  `CatalogListings`, `CatalogSaves`, `CatalogCommits`, `CatalogStale`, `CatalogService`.
- Homepage: `HomepageText`, `HomepageLayout`, `HomepageCleaning`, `HomepageLaws`.
- Logistics: `Shipments`.
- Shared: `Collections`, `Numerals`.

`dafny verify dfyconfig.toml` checks everything.

## Model

| member | source | states |
|---|---|---|
| `Inventory.Conservation` | services/inventory-service/src/main.ts:383-460 | Over every run, reserved quantity moves with what open reservations hold, available plus confirmed moves by accepted adjustments alone, and the version counts effective calls. |
| `Inventory.BalancedAlways` | services/inventory-service/src/main.ts:383-460 | Over every run the reserved quantity of each item stays the sum over its open reservations. |
| `Inventory.OversellExactly` | services/inventory-service/src/main.ts:383-536 | No state of a run is oversold if and only if every accepted adjustment leaves the reserved and safety quantities covered. |
| `Inventory.FloorCheckUnreachable` | services/inventory-service/src/main.ts:1038-1061 | On balanced stock that is not oversold a settle call of an open reservation succeeds, so the invariant-failure branch is dead. |
| `Inventory.FloorCheckExactly` | services/inventory-service/src/main.ts:1038-1061 | On balanced Postgres stock with nothing negative available, the floor check never fires for a try or a cancel, and fires for a confirm if and only if it asks for more than is available. |
| `Inventory.FloorHoldsExactly` | services/inventory-service/src/main.ts:1038-1061 | Over a whole run the floor check never fires if and only if no confirm asks for more than is available when it arrives. |
| `Inventory.CautiousNeverStarved` | services/inventory-service/src/main.ts:857-901 | A run from stock that is not oversold whose adjustments keep the reserved and safety quantities covered has no such confirm. |
| `Inventory.AdjustmentBelowReserved` | services/inventory-service/src/main.ts:512-536 | Concrete adjustment below the reserved quantity: the later confirm fails in Postgres and drives available negative in memory. |
| `Inventory.SettledForGood` | services/inventory-service/src/main.ts:423-458 | Over every run a reservation stays where it is with its quantity, and confirmed or cancelled is never left. |
| `Inventory.AdjustExactly` | services/inventory-service/src/main.ts:512-536 | An adjustment sets the available quantity to the counted stocktake, or else to the old quantity plus the delta; it is refused if and only if that is negative or the item is missing, and it leaves the reserved quantity, every other item and every reservation alone. |
| `InventorySteps.NewTryExactly` | services/inventory-service/src/main.ts:383-421 | A try under a new key is granted if and only if its quantity is left above the reserved and safety quantities, and reserves exactly that. |
| `InventorySteps.RepeatedTryExactly` | services/inventory-service/src/main.ts:542-561 | A try under a used key reserves nothing: it is answered from the reservation if SKU, warehouse and quantity agree, else with a conflict. |
| `InventorySteps.SettleExactly` | services/inventory-service/src/main.ts:423-458 | Confirm takes an open reservation off the reserved and the available quantity, cancel off the reserved one; a settled reservation is answered as it is, or with a conflict. |
| `InventorySteps.NewRowTryExactly` | services/inventory-service/src/main.ts:969-1008 | In the tables a new try goes to the row of its SKU, in its warehouse if it names one, that has the most left, the oldest of several such. |
| `InventorySteps.SettleRowExactly` | services/inventory-service/src/main.ts:1010-1036 | In the tables the settle calls write the oldest row of the reservation's SKU and warehouse. |
| `InventorySteps.RepeatedRowTryExactly` | services/inventory-service/src/main.ts:644-670 | In the tables too a try under a used key reserves nothing and is answered for the oldest row of its key. |
| `InventorySteps.TryWithoutItem` | services/inventory-service/src/main.ts:644-714 | Without the item Postgres answers that it does not exist. |
| `InventorySteps.NoRowForTry` | services/inventory-service/src/main.ts:969-1008 | Without a row that could take the request the answer is that there is none. |
| `InventorySteps.NothingToSettle` | services/inventory-service/src/main.ts:716-758 | A settle call of an unknown reservation, or of one whose rows are gone, is answered that it does not exist. |
| `InventoryBackend.MemoryPlaceExactly` | services/inventory-service/src/main.ts:383-421 | In memory a reservation is placed in the warehouse asked for, or else the default one. |
| `InventoryReplay.ExactlyOnceEffect` | services/inventory-service/src/main.ts:383-536 | Deleting rejected and replayed calls leaves the same reservations and quantities if and only if no accepted adjustment is for an item only a rejected call created. |
| `InventoryReplay.PostgresExactlyOnce` | services/inventory-service/src/main.ts:644-758 | In Postgres the exactly-once law holds for every trace. |
| `InventoryReplay.MemoryAdjustAfterShortage` | services/inventory-service/src/main.ts:542-561 | Concrete memory trace that breaks exactly-once: a refused try creates the item that is adjusted next. |
| `InventoryTables.RunRefines` | services/inventory-service/src/main.ts:644-758 | Every run of the Postgres rows whose calls write no younger row of a key refines the run of the abstract store; `InventoryBatches` says what happens to the others. |
| `InventoryTables.Refines` | services/inventory-service/src/main.ts:644-758 | A transaction that writes no younger row of its key does what the abstract store does, reply included. |
| `InventoryTables.RefinesExactly` | services/inventory-service/src/main.ts:969-1036 | For any tables, several batches included: an accepted transaction does what the abstract store does, reply included, if and only if it writes no younger row of its key. |
| `InventoryTables.OneRowRuns` | services/inventory-service/src/main.ts:969-1036 | With one row per SKU and warehouse no call of any run writes a younger row. |
| `InventoryBatches.RowsConserve` | services/inventory-service/src/main.ts:644-901 | For any tables, several batches of a SKU included, over every run: per key the summed reserved quantity moves with what open reservations hold, and summed available plus confirmed moves by accepted adjustments alone. |
| `InventoryBatches.AdjustRowExactly` | services/inventory-service/src/main.ts:857-901 | An adjustment writes the row it names to the counted stocktake or by the delta, and is refused if and only if that is negative or the row is missing. |
| `InventoryBatches.YoungerRowsKeep` | services/inventory-service/src/main.ts:969-1036 | Over every run a row that is not the oldest of its key gains what tries reserve on it and never loses any of it. |
| `InventoryBatches.OldestRowPays` | services/inventory-service/src/main.ts:969-1036 | Over every run the oldest row of a key falls behind its open reservations by exactly what tries reserved on younger rows. |
| `InventoryBatches.CancelUndoesTry` | services/inventory-service/src/main.ts:969-1036 | Cancelling a new reservation gives back what it took if and only if the row taken from is the oldest of its warehouse. |
| `InventoryBatches.ConfirmMatchesTry` | services/inventory-service/src/main.ts:969-1036 | Confirming a new reservation takes it out of the row it was reserved on if and only if that row is the oldest of its warehouse and has the quantity available. |
| `InventoryBatches.OneBatchCancelUndoes` | services/inventory-service/src/main.ts:969-1036 | With one batch per SKU and warehouse an immediate cancel always undoes its try. |
| `InventoryBatches.TwoBatchesStrandStock` | services/inventory-service/src/main.ts:1010-1036 | Concrete two-batch stock on which neither confirm nor cancel of a granted reservation is accepted. |
| `InventoryBatches.OneMoreTryPays` | services/inventory-service/src/main.ts:1010-1036 | After one more try the refused cancel is accepted at the expense of that try, and the younger row keeps its reserved quantity. |
| `InventoryBatches.CoveredSettle` | services/inventory-service/src/main.ts:716-758 | While the oldest row of every key covers the open reservations of the key, a settle call of an open reservation is accepted and the rows go on covering the rest. |
| `InventoryBackend.GrowsAlways` | services/inventory-service/src/main.ts:1262-1334 | Over every run of requests, whichever store is behind them, reservations keep place and quantity, and a settled one keeps its status. |
| `InventoryBackend.SettledWhenOk` | services/inventory-service/src/main.ts:1281-1309 | A settle call that is answered with success has its reservation in the target status, in memory and in rows with any number of batches. |
| `InventoryStores.InventoryMemoryStore.TryReserve` | services/inventory-service/src/main.ts:383-421 | In-place try equals the store step: replay, shortage with the item created, or one more reservation. |
| `InventoryStores.InventoryMemoryStore.ConfirmReservation` | services/inventory-service/src/main.ts:423-440 | In-place confirm equals the settle step. |
| `InventoryStores.InventoryMemoryStore.CancelReservation` | services/inventory-service/src/main.ts:442-458 | In-place cancel equals the settle step. |
| `InventoryStores.InventoryMemoryStore.Adjust` | services/inventory-service/src/main.ts:512-536 | In-place adjustment equals the adjust step, refusals included. |
| `InventoryStores.InventoryRepository.TryReserve` | services/inventory-service/src/main.ts:644-714 | The transaction equals the row step, with rollback when the floor check fails. |
| `InventoryStores.InventoryRepository.Settle` | services/inventory-service/src/main.ts:716-758 | The confirm and cancel transactions equal the row step, with rollback. |
| `InventoryStores.InventoryRepository.AdjustItem` | services/inventory-service/src/main.ts:857-901 | The adjustment transaction equals the row step, refusals included. |
| `InventoryStores.InventoryRepository.UpdateItemQuantities` | services/inventory-service/src/main.ts:1038-1061 | The quantity update equals the row update, and reports whether the floor check holds. |
| `InventoryStores.InventoryService.Handle` | services/inventory-service/src/main.ts:1262-1334 | A request to the service is the step of whichever store is behind it. |
| `Saga.FinalMeansSettled` | services/order-service/src/main.ts:1832-1926 | In every reachable state of any interleaving, over the memory store and over rows with any number of batches: an order whose status is paid shows paid, paid, confirmed and has every line confirmed, one whose status is cancelled shows cancelled three times and has every line cancelled, and no row shows any other mixture of the three statuses than these, the initial one and the two compensating ones. |
| `Saga.FinalExactlyWhenWon` | services/order-service/src/main.ts:658-680 | An order is paid if and only if some confirm run of it reported so or wrote it behind a lost reply, and cancelled if and only if some cancel run did. |
| `Saga.NeverBothSucceed` | services/order-service/src/main.ts:682-720 | A confirm run and a cancel run never both succeed, not even for two orders sharing a reservation. |
| `Saga.FinalForever` | services/order-service/src/main.ts:1157-1197 | A paid or cancelled order is left as it is by every later run, and its reservations stay confirmed or cancelled. |
| `Saga.CompensationCoverage` | services/order-service/src/main.ts:2147-2201 | Once a run has been through its lines, then and ever after each line has reached its target or has a task under its own key, unless that insert was lost. |
| `Saga.CompletedMeansReached` | services/worker-service/src/main.ts:457-512 | A completed task under a line key has its reservation in the status its type names. |
| `Saga.OnlyRunsMoveOrders` | services/worker-service/src/main.ts:457-512 | An order keeps its row in every state of a run, whatever the worker completes, if and only if no payment run ends with another state for it, answered or not, and nobody compensates it by hand. |
| `Saga.StartExactly` | services/order-service/src/main.ts:1832-1926 | A run begins its calls if and only if the order is neither paid nor cancelled; otherwise it ends at once, granted if the order is as it asks. |
| `Saga.CallExactly` | services/order-service/src/main.ts:2147-2173 | A line of a confirm run is confirmed and one of a cancel run cancelled; it counts as done only if that succeeded and the answer arrived. |
| `Saga.EnqueueExactly` | services/order-service/src/main.ts:2175-2201 | A line that is not done gets a due task under its own key, or the insert is lost. |
| `Saga.EndExactly` | services/order-service/src/main.ts:1157-1197 | What the end of a run makes of the row: paid or cancelled for good if every line was done, else compensating in its direction; a row that is paid or cancelled already is not touched. |
| `Saga.ManualCompensationExactly` | services/order-service/src/main.ts:1229-1345 | Compensation by hand is possible if and only if the order is compensating; it queues a task per line and sets the direction of the payment status. |
| `Saga.WorkerCallExactly` | services/worker-service/src/main.ts:457-474 | A claimed task makes the call its type names, and succeeded only if the answer arrived. |
| `Saga.OthersExactly` | services/worker-service/src/main.ts:424-576 | Other users of the inventory call it freely; the worker writes the queue alone, and calls once per claim. |
| `OrderState.AllowedExactly` | services/order-service/src/main.ts:682-720 | An open or compensating order may go to paid, to cancelled or to compensating, each with all three statuses in step, and a final one nowhere. |
| `SagaQueue.DeadLettersInSaga` | services/worker-service/src/main.ts:514-576 | In every interleaving of the three services a task has one dead letter per transition to dead-lettered, and decisions match decided rows one to one. |
| `SagaQueue.RetriesInSaga` | services/worker-service/src/main.ts:514-576 | In every interleaving without a stale failure of the task, retried failures stay within the retries left plus one allowance per retry decision. |
| `CompensationQueue.DeadLetterAccounting` | services/worker-service/src/main.ts:257-402 | Over every queue run dead-letter rows equal transitions to dead-lettered, and the decision log matches the decided rows; what a decision does to the task is stated by `CompensationWakes.DecideExactly`. |
| `CompensationQueue.DecisionStands` | services/worker-service/src/main.ts:334-402 | A decided dead letter never changes again. |
| `CompensationQueue.RetryUsedExactly` | services/worker-service/src/main.ts:514-576 | A retried failure uses up a retry if and only if the failing claim has seen as many attempts as the row has. |
| `CompensationQueue.RetriesCountExactly` | services/worker-service/src/main.ts:514-576 | Over a run every retried failure of a task uses up a retry if and only if none of its failures comes from a claim with fewer attempts than the row. |
| `CompensationQueue.BoundedRetries` | services/order-service/src/main.ts:1348-1374 | Without such a stale failure, overlapping claims and re-enqueues or not, the number of retried failures is bounded. |
| `CompensationQueue.SingleClaimsNeverStale` | services/worker-service/src/main.ts:424-455 | Claims of a task that never overlap never record a stale failure. |
| `CompensationQueue.OverlappingClaimsRetryTwice` | services/worker-service/src/main.ts:424-455 | Concrete overlapping claims after a re-enqueue that exceed the bound. |
| `CompensationWakes.DecideExactly` | services/worker-service/src/main.ts:257-402 | A retry decision on an open dead letter leaves its task due with no attempts used and every other task as it was; a discard leaves all tasks as they were; a decided row refuses both. |
| `CompensationWakes.EnqueueExactly` | services/order-service/src/main.ts:1348-1374 | An enqueue makes the task of its key due, completed and dead-lettered ones included; a known task keeps its attempts and its type. |
| `CompensationWakes.WakesExactly` | services/worker-service/src/main.ts:424-576 | A task that is processing, completed or dead-lettered becomes due if and only if it is enqueued, or a retry is decided on an open row of it, or a claim of it records a failure that is not its last. |
| `CompensationWakes.BecomesDueExactly` | services/worker-service/src/main.ts:424-576 | The same over every run: a task whose claim was abandoned stays in processing until one of these happens. |
| `CompensationWakes.DeadLetteredExactly` | services/worker-service/src/main.ts:257-402 | While claims of one task do not overlap, a dead-lettered task becomes due again if and only if it is enqueued or a retry is decided on an open row of it, and is unchanged otherwise. |
| `CompensationWakes.FailsToTheEnd` | services/worker-service/src/main.ts:514-576 | A task whose calls all fail is retried with one attempt more each time and dead-lettered, once, by the last of its attempts and no earlier. |
| `CompensationWakes.ClaimExactly` | services/worker-service/src/main.ts:424-455 | A due task is claimed as it is, by one worker; a task that is not due is not claimed. |
| `CompensationWakes.ClaimAfterExactly` | services/worker-service/src/main.ts:457-576 | A claim learns the outcome of its call once and ends with its own completion, failure or abandonment. |
| `CompensationWakes.OneSuccess` | services/worker-service/src/main.ts:457-474 | A call that succeeds completes the task, which is not due again. |
| `OrderService.UninterruptedRun` | services/order-service/src/main.ts:1832-1926 | Undisturbed and with every call acknowledged a confirm run ends in paid, paid, confirmed and a cancel run in cancelled three times if and only if no line is missing or settled the other way, else in compensating with the payment status of its direction: over the memory store, over balanced stock that is not oversold, or over rows whose oldest row covers what is open on its key. |
| `OrderService.Service.TransitionPayment` | services/order-service/src/main.ts:1832-1926 | The payment transition with its loop over lines and its order write, each acknowledged, carried out behind a lost reply or lost, is a run of the saga under the schedule of its calls, over either inventory store, several batches included. Its answer is spelled out: already final, refused, moved with the statuses written, or none if the write was not answered. |
| `OrderService.Service.ApplyInventoryTransition` | services/order-service/src/main.ts:2147-2173 | The line loop applies every call to the inventory, over either store and several batches, and queues a task for each unacknowledged one, in order. |
| `Checkout.ReserveLines` | services/order-service/src/main.ts:2203-2247 | The reservation loop with its undo loop, over the memory store or rows with any number of batches, equals the checkout function. |
| `Checkout.CheckoutTotals` | services/order-service/src/main.ts:2203-2247 | With one item per SKU and warehouse and unused keys, what a checkout leaves reserved per item, for every pattern of lost and undelivered calls. |
| `Checkout.CancelOrderIrrelevant` | services/order-service/src/main.ts:2234-2247 | With one item per SKU and warehouse the cancels, sent in parallel, leave the same stock in whatever order they arrive. |
| `Checkout.UndoInAnyOrder` | services/order-service/src/main.ts:2203-2247 | With one item per SKU and warehouse a failed checkout ends in the same stock for every arrival order of its cancels, lost ones included. |
| `Checkout.AllOrNothing` | services/order-service/src/main.ts:2203-2247 | With one item per SKU and warehouse a failed checkout leaves all reserved totals as before if and only if the failing try was not carried out behind a lost reply and every cancel call was carried out. |
| `Checkout.SucceedsExactly` | services/order-service/src/main.ts:2203-2247 | Over either store a checkout succeeds if and only if every try was answered with a reservation, and hands exactly those to the order. |
| `Checkout.LoopIsOneOrder` | services/order-service/src/main.ts:2234-2247 | The undo loop in line order is one of the arrival orders, whichever store is behind it. |
| `CheckoutBatches.AllOrNothingInBatches` | services/order-service/src/main.ts:2203-2247 | Over any rows with non-negative quantities and for every arrival order of the cancels: a failed checkout leaves all reserved totals as before if and only if nothing leaked, every cancel was delivered, and no oldest row had less reserved than the tries took from younger rows of its key. What it leaves is what its own open reservations hold. |
| `CheckoutBatches.SuccessTotals` | services/order-service/src/main.ts:2203-2247 | After a successful checkout over such rows every line holds its reservation and the reserved totals have grown by exactly those. |
| `CheckoutBatches.DeliveredCancelRefused` | services/order-service/src/main.ts:2203-2247 | Concrete two-batch checkout that leaks nothing, delivers every cancel and still keeps stock reserved. |
| `Keys.ReservationKeysInjective` | services/order-service/src/main.ts:1567 | Derived reservation keys of different orders or lines never coincide. |
| `Keys.TaskKeysInjective` | services/order-service/src/main.ts:2175-2201 | Compensation task keys of different reservations, actions or administrators never coincide. |
| `Keys.KeyTexts` | services/order-service/src/main.ts:2175-2201 | How the keys read: reservation, compensation and action, or key, inventory and index. |
| `WorkerService.CompensationWorker.ClaimDueTasks` | services/worker-service/src/main.ts:424-455 | Claims exactly the first due tasks up to the batch size and moves them to processing. |
| `WorkerService.CompensationWorker.CompleteTask` | services/worker-service/src/main.ts:457-474 | The completing write in its three outcomes: carried out behind a lost reply, the task is completed and the worker still goes on to record a failure. |
| `WorkerService.CompensationWorker.ProcessTask` | services/worker-service/src/main.ts:457-474 | One task is the call, the completing write and, unless that was acknowledged, the write of the failure, each acknowledged, carried out behind a lost reply or lost. |
| `WorkerService.CompensationWorker.RecordFailure` | services/worker-service/src/main.ts:514-576 | Retries or dead-letters the task from the claimed attempt count, with the matching counter. |
| `WorkerService.CompensationWorker.RunOnce` | services/worker-service/src/main.ts:404-422 | A pass is the claims, carried out or not and answered or not, followed by each task in turn until a failure cannot be recorded; nothing while another pass runs. It counts every task it finishes once. |
| `WorkerService.PickedExactly` | services/worker-service/src/main.ts:424-455 | Only due tasks are picked, and all of them when the batch is not full. |
| `Refunds.WithStatusRows` | services/payment-service/src/payment-refund.ts:320-332 | The event update reaches exactly the rows carrying the provider refund id, whatever their provider. |
| `RefundLaws.CapExactly` | services/payment-service/src/payment-refund.ts:276-340 | A step keeps active refunds within every payment if and only if the failed refunds it revives, if any, still fit. |
| `RefundLaws.CapThroughoutExactly` | services/payment-service/src/payment-refund.ts:137-356 | Active refunds stay within every payment at every point of a run if and only if every applied event fits in that sense. |
| `RefundLaws.RefundsNeverExceedPayment` | services/payment-service/src/payment-refund.ts:137-356 | Over every such run, in any order of claims, results, events and payments, completed refunds stay within the order total too. |
| `RefundLaws.FailedIsAbsorbing` | services/payment-service/src/payment-refund.ts:38-42 | A step keeps all failed refunds failed if and only if it does not revive one. |
| `RefundLaws.FreshIdsNeverRevive` | services/payment-service/src/payment-refund.ts:276-340 | If providers never hand out another refund's id, no event of any run revives a refund, so every event fits. |
| `RefundLaws.CapFromStart` | services/payment-service/src/payment-refund.ts:137-356 | From an empty ledger, with provider ids that are never another refund's, no run refunds more than the order total on a payment. |
| `RefundStatuses.EventDecided` | services/payment-service/src/payment-refund.ts:38-42 | A provider event is accepted if and only if the refund it names has its id, amount and currency and is still open or has the reported status already; it changes the carriers of the id in the first case and nothing in any other. |
| `RefundStatuses.StatusAfterExactly` | services/payment-service/src/payment-refund.ts:276-340 | The status of a refund after any step, from row statuses: the recorded result, the status of an event that lands on a carrier of its id, or the old one. |
| `RefundStatuses.SettledLeftExactly` | services/payment-service/src/payment-refund.ts:276-340 | A completed or failed refund is left as it is by a step if and only if the step is neither a recorded pending result on it nor an event with another status that lands on another, open carrier of its id. |
| `RefundStatuses.SettledForGood` | services/payment-service/src/payment-refund.ts:276-340 | With ids of their own and no pending result on a completed refund, completed and failed are absorbing over every run. |
| `PaymentSteps.OrderTotalExactly` | services/order-service/src/main.ts:555 | An order total is additive over its lines, each counting its price as often as its quantity says. |
| `PaymentSteps.NewKeyExactly` | services/payment-service/src/payment-refund.ts:137-194 | A claim with a new key is granted if and only if its amount is positive and within what the order's last refundable payment has left of its amount. |
| `PaymentSteps.ReusedKeyExactly` | services/payment-service/src/payment-refund.ts:155-172 | A claim with a used key is resumed or reported completed from its refund if order, amount and currency agree and the refund has not failed. |
| `PaymentSteps.ResultExactly` | services/payment-service/src/payment-refund.ts:276-298 | A provider result is recorded if and only if the refund has not failed and no other refund of the provider has the id; a completed one sets the payment's status from its completed refunds. |
| `PaymentSteps.PaidExactly` | services/payment-service/src/payment-transaction.ts:81-98 | A paid event is accepted if and only if it has the order's amount and currency and a created or paid payment of its provider and id is there. |
| `PaymentSteps.CreatedExactly` | services/payment-service/src/payment-transaction.ts:62-79 | A new payment is stored as created, without a capture id, unless its provider's payment or key is known. |
| `PaymentSteps.ClaimRefused` | services/payment-service/src/payment-refund.ts:137-154 | Without a capture id a claim is refused, and in another currency it conflicts. |
| `PaymentSteps.NothingToRefund` | services/payment-service/src/payment-refund.ts:137-150 | An order without a paid or partially refunded payment takes no claim. |
| `PaymentSteps.SumExactly` | services/payment-service/src/payment-refund.ts:174-181 | A refund counts towards the total of its own payment while its status is among those asked for. |
| `RefundSharedId.SharedIsReached` | services/payment-service/src/payment-refund.ts:299-332 | A run from the empty ledger that ends with two providers' refunds under one provider refund id. |
| `RefundSharedId.SharedIdBreaksCap` | services/payment-service/src/payment-refund.ts:299-332 | On that ledger an event of one provider revives the other's failed refund past the cap and leaves its payment's status behind. |
| `RefundAgreement.PendingResultExactly` | services/payment-service/src/payment-refund.ts:276-298 | A pending result keeps payment statuses in agreement if and only if it does not land on a full or only completed refund. |
| `RefundAgreement.CompletedResultExactly` | services/payment-service/src/payment-refund.ts:276-298 | A completed result keeps them in agreement if and only if it does not complete more than the payment. |
| `RefundAgreement.EventExactly` | services/payment-service/src/payment-refund.ts:299-356 | An event keeps them in agreement if and only if it does not move the refunded share of a payment it does not recalculate, nor complete more than the one it does. |
| `RefundAgreement.StatusAgreementExactly` | services/payment-service/src/payment-refund.ts:342-356 | At every point of a run a captured payment is refunded, partially refunded or paid exactly as its completed refunds say, if and only if every step passes these conditions; shared ids are not excluded. |
| `RefundAgreement.StatusFromStart` | services/payment-service/src/payment-refund.ts:342-356 | From the empty ledger, with ids of their own and no disturbing pending result, the statuses agree at every point of every run. |
| `RefundQuote.SummaryTotals` | services/payment-service/src/payment-refund.ts:95-104 | The totals reduced from the selected rows equal the sums the claim and the recalculation query. |
| `RefundQuote.SummaryExactly` | services/payment-service/src/payment-refund.ts:91-135 | On any ledger, capped or not, the summary is of the last captured payment, with its refunded and reserved totals and what is left, never below zero. |
| `RefundQuote.QuoteExactly` | services/payment-service/src/payment-refund.ts:95-114 | For a claimable payment the floor at zero is never needed, and the quote is exactly what a fresh claim accepts if and only if a capture id is recorded or the quote is zero. |
| `RefundQuote.RefundedQuoteExactly` | services/payment-service/src/payment-refund.ts:202-222 | For a refunded latest payment the quote is zero, which is exact if and only if no older claimable payment has room. |
| `RefundQuote.OneRefundPerKey` | services/payment-service/src/payment-refund.ts:155-194 | Over every run an idempotency key names at most one refund, and refunds keep payment, amount and key. |
| `RefundStore.PaymentRepository.ClaimRow` | services/payment-service/src/payment-refund.ts:137-200 | The claim transaction equals the ledger's claim step, error cases included. |
| `RefundStore.PaymentRepository.RecordResult` | services/payment-service/src/payment-refund.ts:276-298 | The result transaction equals the ledger step, recalculating on completed only. |
| `RefundStore.PaymentRepository.ApplyEvent` | services/payment-service/src/payment-refund.ts:299-340 | The event transaction equals the ledger step: replay, conflict or apply with recalculation. |
| `RefundStore.PaymentRepository.RecordTransaction` | services/payment-service/src/payment-transaction.ts:62-79 | Inserts a created payment unless its key or provider payment exists. |
| `RefundStore.PaymentRepository.CompletePayment` | services/payment-service/src/payment-transaction.ts:81-98 | Marks the matching created or paid payment paid, provided amount and currency are those of the order. |
| `RefundStore.PaymentRepository.ProcessPaymentRefund` | services/payment-service/src/payment-refund.ts:44-68 | A whole refund request, whatever the provider answers, is a run of the ledger; it is answered by the refused claim, by the completed refund, or by what recording the provider's answer came to, and a success names a refund with the requested key, amount and status. |
| `WebhookInbox.PickedExactly` | services/payment-service/src/payment-webhook-inbox.ts:219-251 | A pass leases only due events and, unless full, all of them. |
| `WebhookInbox.ProcessedForGood` | services/payment-service/src/payment-webhook-inbox.ts:98-160 | Over every run a stored event keeps its payload and identity, and a processed one is never written or leased again. |
| `WebhookInbox.FirstPayloadDecides` | services/payment-service/src/payment-webhook-inbox.ts:75-80 | In every later state a delivery conflicts if and only if its payload differs from the first one, and writes the row if and only if it agrees and the event was given up. |
| `WebhookInbox.FailureAccounting` | services/payment-service/src/payment-webhook-inbox.ts:82-89 | Over every run failures equal the claims used up times the maximum plus the open attempts, and completions are one or none. |
| `WebhookInbox.GivenUpExactly` | services/payment-service/src/payment-webhook-inbox.ts:273-285 | From an empty inbox an event is given up if and only if every claim of it has failed the maximum number of times, and processed if and only if completed once. |
| `WebhookInbox.NeverStuck` | services/payment-service/src/payment-webhook-inbox.ts:219-251 | After any run, crashes included, every open event is due again within the longest lease or back-off. |
| `WebhookOutcomes.DeliveryExactly` | services/payment-service/src/payment-webhook-inbox.ts:98-160 | What a delivery does to the row: stored, refused for another payload or limit, started afresh if given up, else left alone. |
| `WebhookOutcomes.LeaseExactly` | services/payment-service/src/payment-webhook-inbox.ts:219-251 | A pass takes the picked events as they are stored and puts them out of reach for the length of the lease, and no others. |
| `WebhookOutcomes.HandledExactly` | services/payment-service/src/payment-webhook-worker.ts:106-124 | Handling a leased event makes it processed if and only if the ledger takes it and the completing write is carried out; otherwise an attempt is used up or the event given up, unless that write is lost too. What the ledger refuses changes nothing in it. |
| `WebhookOutcomes.WritesExactly` | services/payment-service/src/payment-webhook-inbox.ts:253-285 | Both writes that end the handling find the event open, or refuse. |
| `WebhookOutcomes.ProcessedExactly` | services/payment-service/src/payment-webhook-worker.ts:9-75 | Over every run an event becomes processed if and only if at some moment the ledger took it, with the payload it was stored with, and the completing write was carried out. |
| `WebhookService.LedgerFollows` | services/payment-service/src/payment-webhook-worker.ts:9-75 | Inbox passes, deliveries and claims together move the ledger as one run of ledger events. |
| `WebhookService.CapWithRedelivery` | services/payment-service/src/payment-webhook-worker.ts:9-75 | With the inbox in front, however often deliveries are handled, the refund cap holds after every move if and only if every event applied on the way fits. |
| `WebhookService.RedeliveryIsHarmless` | services/payment-service/src/payment-webhook-worker.ts:9-75 | Handling an event again right away changes nothing and is answered as before. |
| `WebhookService.PaymentWebhookInboxRepository.Claim` | services/payment-service/src/payment-webhook-inbox.ts:98-160 | The delivery transaction equals the inbox claim step. |
| `WebhookService.PaymentWebhookInboxRepository.MarkProcessingFailure` | services/payment-service/src/payment-webhook-inbox.ts:273-285 | Writes the failure from the leased attempt count, only on a row in processing. |
| `WebhookService.PaymentWebhookWorker.Process` | services/payment-service/src/payment-webhook-worker.ts:9-75 | The handler performs the ledger step the payload asks for once its own checks pass, and reports whether it raised. |
| `WebhookService.PaymentWebhookWorker.RunOnce` | services/payment-service/src/payment-webhook-worker.ts:106-132 | A pass is one lease followed by the handling of each leased task, and nothing while another runs. The lease, the completing write and the failure write are each acknowledged, carried out behind a lost reply or lost; a failure that is not acknowledged ends the pass. |
| `PayPalAmount.TruncationIsExact` | services/payment-service/src/paypal-provider.ts:60-66 | The truncated double quotient by 100 is the integer quotient for every amount up to 2^53-1. |
| `PayPalAmount.ParseExactly` | services/payment-service/src/paypal-provider.ts:80-91 | A string is accepted if and only if it is digits, point, two digits and in safe range, and rounding never shows. |
| `PayPalAmount.IsAmountExactly` | services/payment-service/src/paypal-provider.ts:80-84 | An amount is one digit or more, a point and exactly two digits. |
| `PayPalAmount.SafeExactly` | services/payment-service/src/paypal-provider.ts:85-89 | The largest accepted amount is one less than two to the power of 53. |
| `PayPalAmount.ParseOfFormat` | services/payment-service/src/paypal-provider.ts:60-91 | Parsing a printed amount returns it, for every amount up to 2^53-1. |
| `PayPalAmount.FormatOfParse` | services/payment-service/src/paypal-provider.ts:60-91 | Printing a parsed amount returns the string without redundant leading zeros. |
| `MediaLaws.DeletedOnlyOnSecondLook` | services/media-service/src/main.ts:712-737 | In every run each deleted object was deleted after an unbound look of the same pass, itself after an earlier persisted unbound observation. |
| `MediaLaws.SeenTwiceSinceEnqueueExactly` | services/media-service/src/media-reconciliation-repository.ts:130-156 | An object about to be deleted was seen unbound twice since its enqueue if and only if the task had no observation at that enqueue. |
| `MediaLaws.ReplacedObjectSeenOnce` | services/media-service/src/media-reconciliation-repository.ts:130-156 | Concrete run that deletes an object after a single look. |
| `MediaLaws.TerminalLeftExactly` | services/media-service/src/media-reconciliation-repository.ts:198-211 | A terminal status is left if and only if the worker records a failure over its own write whose reply was lost. |
| `MediaLaws.SettledForGood` | services/media-service/src/media-reconciliation-repository.ts:158-211 | Once no pass holds the task, resolved, cleaned and discarded are absorbing and no further object of it is deleted. |
| `MediaLaws.RetryDelayBounds` | services/media-service/src/media-reconciliation.ts:10-13 | The back-off doubles from five seconds to five minutes and stays there from the seventh attempt. |
| `MediaLaws.AuditsAreDecisions` | services/media-service/src/media-reconciliation-repository.ts:238-318 | After every run the audit table has grown by one row per accepted decision (on a failed task, with an unused key), in order, and by nothing else. |
| `MediaLaws.AuditTrail` | services/media-service/src/media-reconciliation-repository.ts:238-318 | Over every run a task is discarded if and only if an audit row says so, that row is its last, and no key was used twice. |
| `MediaLaws.UsedKeyReplays` | services/media-service/src/media-reconciliation-repository.ts:258-274 | A used key changes nothing in any later state: it replays its own decision and conflicts with any other. |
| `MediaSteps.EnqueueExactly` | services/media-service/src/media-reconciliation-repository.ts:130-156 | An enqueue replaces the objects and reopens a failed task after the delay; counters and any other status stay. |
| `MediaSteps.AskExactly` | services/media-service/src/main.ts:712-737 | A bound asset resolves the task, an unbound one is noted the first time and its objects deleted the next time, a failed query leaves a failure to record. |
| `MediaSteps.FailExactly` | services/media-service/src/media-reconciliation-repository.ts:198-236 | A failure uses up one of the attempts the task had when it was taken; the last one fails it, any other waits for the back-off. |
| `MediaSteps.HandleExactly` | services/media-service/src/media-reconciliation-repository.ts:238-318 | A decision under a new key is accepted if and only if the task has failed: retry gives it all its attempts back, discard ends it. |
| `MediaSteps.UsedKeyExactly` | services/media-service/src/media-reconciliation-repository.ts:258-274 | A used key is answered from its decision, handled again if it is the same. |
| `MediaSteps.StartExactly` | services/media-service/src/media-reconciliation-repository.ts:158-178 | A pass takes the ripe and the abandoned tasks as they are, marks them as taken, and none while another is under way. |
| `MediaSteps.DeleteExactly` | services/media-service/src/main.ts:735 | The leased objects go one after the other, and after the last one the task is cleaned. |
| `MediaSteps.NothingToAsk` | services/media-service/src/main.ts:712-749 | Without a fresh task at its head a pass asks nothing. |
| `MediaSteps.NothingToDelete` | services/media-service/src/main.ts:712-749 | Unless it is deleting, a pass deletes nothing. |
| `MediaSteps.NothingFailed` | services/media-service/src/main.ts:712-749 | Unless something was raised, no failure is recorded. |
| `MediaService.MediaReconciliationRepository.EnqueueTask` | services/media-service/src/media-reconciliation-repository.ts:130-156 | The upsert equals the enqueue step: objects replaced, failed reopened, counters kept. |
| `MediaService.MediaReconciliationRepository.ClaimDue` | services/media-service/src/media-reconciliation-repository.ts:158-178 | The claim takes due and abandoned tasks and returns them as updated. |
| `MediaService.MediaReconciliationRepository.HandleFailedTask` | services/media-service/src/media-reconciliation-repository.ts:238-318 | The manual action equals the handling step, replay and conflicts included. |
| `MediaService.MediaReconciliationWorker.DeleteObjects` | services/media-service/src/main.ts:735 | Deletes the leased objects in order up to the first error. |
| `MediaService.MediaReconciliationWorker.Process` | services/media-service/src/main.ts:712-749 | Query, decision, writes and error handling of one task are a run of the state machine. |
| `MediaService.MediaReconciliationWorker.RunOnce` | services/media-service/src/main.ts:699-710 | A pass is one claim followed by each task in turn, and nothing while another pass runs. |
| `CatalogCache.EveryReadIsExact` | services/catalog-service/src/main.ts:433-463 | After any run of reads, evictions and saves whose deletions succeed and whose reads are stored before a write drops their key, every cached read, the nested snapshot included, returns what the database holds. Reads may straddle writes that leave their key alone. |
| `CatalogCache.UntouchedQueries` | services/catalog-service/src/cache-policy.ts:9-29 | A write changes no query whose key it leaves in the cache. |
| `CacheSteps.MissExactly` | services/catalog-service/src/main.ts:443-451 | A miss asks the database and stores the answer under its key, touching no other entry. |
| `CacheSteps.SnapshotMissExactly` | services/catalog-service/src/main.ts:1003-1025 | A missing snapshot is put together from its three cached or freshly read parts, which are stored with it. |
| `CacheSteps.CollectExactly` | services/catalog-service/src/main.ts:1003-1025 | A part of a snapshot is what a read of it returns at that moment, and no other part changes. |
| `CacheSteps.SaveExactly` | services/catalog-service/src/main.ts:453-463 | A committed save leaves behind exactly the reads under way of keys it deletes; a rolled back one changes nothing. |
| `CacheSteps.HitExactly` | services/catalog-service/src/main.ts:433-441 | A hit is answered from the cache and changes nothing. |
| `CacheSteps.StartExactly` | services/catalog-service/src/main.ts:433-451 | Only a miss begins a read. |
| `CacheSteps.FinishExactly` | services/catalog-service/src/main.ts:443-451 | A read that ends stores what it found under its key, touching no other entry. |
| `CacheSteps.EvictExactly` | services/catalog-service/src/main.ts:433-463 | An eviction removes one entry. |
| `CacheSteps.NothingToCollect` | services/catalog-service/src/main.ts:1003-1025 | Only a snapshot collects parts. |
| `CacheSteps.NothingToFinish` | services/catalog-service/src/main.ts:1003-1025 | A snapshot that lacks a part is not stored. |
| `CacheSteps.CommitExactly` | services/catalog-service/src/main.ts:1091-1579 | A save of facets writes its own table, one of products neither of the two. |
| `CacheSteps.QueryExactly` | services/catalog-service/src/main.ts:526-1025 | Each key stands for its query. |
| `CatalogStale.FailedDeleteExactly` | services/catalog-service/src/main.ts:453-463 | After a commit whose key deletion failed the cache is coherent if and only if the inputs restate what every cached listing among the dropped ones shows: last input per slug against its row, last input per SKU against its product, whose first SKU gives price, currency and origin and whose last gives package and weight. Products may have several SKUs. |
| `CatalogStale.QueryExactly` | services/catalog-service/src/main.ts:526-1025 | Any saves leave a query as it is if and only if their inputs restate what it shows; for the summaries, of the newest 24 products. |
| `CatalogStale.LateReadExactly` | services/catalog-service/src/main.ts:443-451 | A current read of any one key stored after any run keeps a coherent cache coherent if and only if the inputs of all saves committed since restate what it shows. |
| `CatalogStale.LateSnapshotExactly` | services/catalog-service/src/main.ts:1003-1025 | A snapshot whose three parts were collected at different moments of a run and which is stored at its end keeps a coherent cache coherent if and only if, part by part, the saves committed since restate it. |
| `CatalogStale.RunDone` | services/catalog-service/src/main.ts:1091-1579 | Along any run of reads and saves the tables stay keyed and move by the inputs of the committed saves alone, in order. |
| `CatalogStale.StraddlingReadGoesStale` | services/catalog-service/src/main.ts:733-774 | Concrete race: a category list read before a commit and stored after it goes stale. |
| `CatalogStale.FacetSavesKeepProducts` | services/catalog-service/src/cache-policy.ts:9-25 | A save of categories or regions never changes the two product queries whose keys it drops. |
| `CatalogListings.SavedExactly` | services/catalog-service/src/main.ts:1091-1285 | After a save of categories or regions every stored row says what the last input for its slug says, and rows are added exactly for the other slugs. |
| `CatalogListings.AddedExactly` | services/catalog-service/src/main.ts:1091-1285 | Every category or region that a save adds has one of the new ids and says what the last input for its slug says, in both languages. |
| `CatalogListings.ListedExactly` | services/catalog-service/src/main.ts:733-828 | A save of categories or regions leaves their listing as it is if and only if every last input of a slug repeats its stored row. |
| `CatalogCards.StorefrontShowsOffers` | services/catalog-service/src/main.ts:829-1001 | Join and grouping together list one card per displayable product, newest first, with the code, price, currency and origin of its first SKU, the package and weight of its last, and its translations. |
| `CatalogCards.SummariesShowOffers` | services/catalog-service/src/main.ts:526-600 | The summary query lists the newest active products with a SKU, at most 24. |
| `CatalogSaves.SavedOffers` | services/catalog-service/src/main.ts:1287-1579 | A committed save of products overwrites products by SKU code and keeps the tables' keys. |
| `CatalogSaves.SavedOffersExactly` | services/catalog-service/src/main.ts:1287-1579 | Every product ends up as the last input for any of its SKUs says, with the assets of the last one that mentions any, each SKU as the last input for it says; new products are added for the other codes. |
| `CatalogCommits.CommitsExactly` | services/catalog-service/src/main.ts:1287-1572 | A save of products is carried out if and only if every input names a category and a region there are, and every input for a new SKU code brings a slug that neither a product nor an earlier such input has; otherwise all of it is rolled back. |
| `CatalogCommits.InvalidatedExactly` | services/catalog-service/src/cache-policy.ts:9-29 | After a committed save whose deletions succeed exactly the entries that it leaves alone are still there: the regions after one of categories, the categories after one of regions, both after one of products. |
| `CatalogCommits.ActiveAssetsExactly` | services/catalog-service/src/main.ts:862-880 | The storefront shows the active ones of a product's assets, in their order. |
| `CatalogCommits.BlocksExactly` | services/catalog-service/src/main.ts:925-945 | A listed product shows its own story blocks in each language, in their order. |
| `CatalogCommits.ListedExactly` | services/catalog-service/src/main.ts:733-828 | The lists of categories and regions show those with a translation, in their order. |
| `CatalogCommits.SkusExactly` | services/catalog-service/src/main.ts:526-600 | A product's SKUs are those that refer to it, in creation order. |
| `CatalogGrouping.GroupRows` | services/catalog-service/src/main.ts:925-1000 | The grouping loops compute the products in order of first row, each with its locales and story blocks. |
| `CatalogGrouping.GroupBlocks` | services/catalog-service/src/main.ts:925-945 | The map of story blocks holds, per product and locale, exactly their blocks in order. |
| `CatalogGrouping.IdsExactly` | services/catalog-service/src/main.ts:947-998 | The listed ids are exactly the ids of the rows, each once. |
| `CatalogGrouping.OrderOfAppearance` | services/catalog-service/src/main.ts:947-998 | Products are listed in the order of their first rows. |
| `CatalogGrouping.HeaderIsFirst` | services/catalog-service/src/main.ts:949-971 | A listed product has the header of its first row. |
| `CatalogGrouping.CopyIsLast` | services/catalog-service/src/main.ts:973-993 | A listed product has the locales of its rows, each with the text of the last row in it. |
| `CatalogSkus.OneSkuExactly` | services/catalog-service/src/main.ts:947-998 | For every order of its rows, an active product is listed with the data of a single SKU if and only if it has one. |
| `CatalogSkus.TwoSkusListed` | services/catalog-service/src/main.ts:947-998 | Concrete product with two SKUs, listed as the small one for its price with the weight of the large one, or the other way round. |
| `CatalogSkus.SaveKeepsOneSku` | services/catalog-service/src/main.ts:1293-1570 | Saving products never gives a product a second SKU nor a code a second row. |
| `CatalogService.CatalogRepository.ListActiveProducts` | services/catalog-service/src/main.ts:526-600 | The read-through summaries equal the cached read. |
| `CatalogService.CatalogRepository.ListStorefrontProducts` | services/catalog-service/src/main.ts:829-1001 | The read-through listing equals the cached read. |
| `CatalogService.CatalogRepository.GetStorefrontSnapshot` | services/catalog-service/src/main.ts:1003-1025 | The snapshot built from three cached reads equals the database's, but for the time, when the cache is coherent. |
| `CatalogService.CatalogRepository.SaveCategories` | services/catalog-service/src/main.ts:1091-1171 | Commit, delete keys, list again: the cache stays coherent and the returned list is the stored one. |
| `CatalogService.CatalogRepository.SaveRegions` | services/catalog-service/src/main.ts:1173-1285 | The same for regions. |
| `CatalogService.CatalogRepository.CommitProducts` | services/catalog-service/src/main.ts:1287-1572 | The transaction: an unknown category or region, or a new product whose slug is taken, rolls all of it back. |
| `CatalogService.CatalogRepository.SaveProducts` | services/catalog-service/src/main.ts:1287-1579 | A rolled back save changes nothing; otherwise the keys are deleted, the cache stays coherent and the returned listing is what the database holds. |
| `HomepageText.CleanTextTwice` | packages/contracts/src/homepage-layout.ts:93-95 | Cleaned text is printable and trimmed, and cleaning it again changes nothing. |
| `HomepageText.NormalizeReferenceTwice` | packages/contracts/src/media-reference.ts:11-19 | An accepted reference is a path or HTTPS address and is accepted again unchanged. |
| `HomepageCleaning.CleanTextExactly` | packages/contracts/src/homepage-layout.ts:93-95 | A text loses its unprintable characters, then the blanks at its ends, and nothing else. |
| `HomepageCleaning.PrintableExactly` | packages/contracts/src/homepage-layout.ts:93-95 | Exactly the unprintable characters are dropped. |
| `HomepageCleaning.UnprintableExactly` | packages/contracts/src/homepage-layout.ts:93-95 | The characters that cleaning drops: control characters but for tab, line feed and return, zero-width ones and the replacement character. |
| `HomepageCleaning.BlankExactly` | packages/contracts/src/homepage-layout.ts:93-95 | The characters that trimming removes. |
| `HomepageCleaning.ReferenceExactly` | packages/contracts/src/media-reference.ts:11-19 | A reference is accepted if and only if it is a path or an HTTPS address between blanks, and keeps all but those; one without a scheme gets HTTPS. |
| `HomepageCleaning.ContentExactly` | packages/contracts/src/homepage-layout.ts:101-133 | A module's content is accepted if and only if all its references are; then every text in it is cleaned, every reference normalized, and the rest as it was. |
| `HomepageLaws.StableSortSorts` | packages/contracts/src/homepage-layout.ts:103-104 | The sort is ordered and keeps the modules of every sort order in their order. |
| `HomepageLaws.StableSortUnique` | packages/contracts/src/homepage-layout.ts:103-104 | No other arrangement is a stable sort. |
| `HomepageLaws.NormalizeExactly` | packages/contracts/src/homepage-layout.ts:101-133 | Normalization fails if and only if an id repeats or a reference is rejected; else it is the stable sort numbered in tens with cleaned contents. |
| `HomepageLaws.NormalizeIsIdempotent` | packages/contracts/src/homepage-layout.ts:101-133 | The normal layouts are the fixed points, reached in one step. |
| `HomepageLaws.DuplicateExactly` | packages/contracts/src/homepage-layout.ts:135-142 | Accepted if and only if the id is present and the new one is not; the copy lands right behind its source. |
| `HomepageLaws.MoveExactly` | packages/contracts/src/homepage-layout.ts:149-158 | Accepted if and only if both ids are present and different; the module stands right before the target and the rest is as it was. |
| `HomepageLaws.RemoveExactly` | packages/contracts/src/homepage-layout.ts:160-165 | Accepted if and only if the module is present and neither header nor footer; one module goes. |
| `HomepageLaws.ToggleExactly` | packages/contracts/src/homepage-layout.ts:144-147 | Changes the flag of that module alone and keeps the layout normal. |
| `HomepageLaws.RemoveUndoesDuplicate` | packages/contracts/src/homepage-layout.ts:135-165 | Removing a duplicate gives back the layout. |
| `HomepageLaws.EditsKeep` | packages/contracts/src/homepage-layout.ts:135-165 | Over every sequence of edits ids stay distinct, positions are numbered in tens, and no header or footer is lost. |
| `HomepageLayout.Duplicate` | packages/contracts/src/homepage-layout.ts:135-142 | The splice equals the duplicate edit. |
| `HomepageLayout.Move` | packages/contracts/src/homepage-layout.ts:149-158 | The two splices equal the move edit. |
| `Shipments.LogsAlways` | services/logistics-service/src/main.ts:511-543 | In every reachable state each log is a path of allowed or self transitions to the current status, with one event per accepted key besides the first; delivered is final and timed by its last event. |
| `Shipments.ShippedOnlyAtFirst` | services/logistics-service/src/fulfillment.ts:76-90 | No path of allowed transitions returns to shipped. |
| `Shipments.TransitionsExactly` | services/logistics-service/src/fulfillment.ts:76-90 | A status may stay; otherwise a step is allowed if and only if it does not go back to shipped, does not leave delivered, and from out for delivery goes to delivered or exception. |
| `Shipments.UpdateExactly` | services/logistics-service/src/main.ts:511-543 | An update under a new key with an allowed status adds one event and sets status and times; anything else changes nothing. |
| `Shipments.CreateExactly` | services/logistics-service/src/main.ts:411-449 | A new shipment is shipped, with one event that says so. |
| `Shipments.NothingToUpdate` | services/logistics-service/src/main.ts:511-518 | An unknown shipment is not updated. |
| `Shipments.AcceptedKeyReplays` | services/logistics-service/src/main.ts:519-525 | An accepted status key is replayed for the same request and conflicts with any other, in every later state. |
| `Shipments.CreatedKeyReplays` | services/logistics-service/src/main.ts:413-418 | In every later state a creation key is replayed for the same request and conflicts with any other. |
| `Shipments.ShipmentRepository.CreateShipmentObject` | services/logistics-service/src/main.ts:411-449 | Creation of the shared object equals the create step, with the replay search. |
| `Shipments.ShipmentRepository.UpdateShipmentStatus` | services/logistics-service/src/main.ts:511-543 | The update in place of the shared object equals the update step and touches no other shipment. |

## Left out

- HTTP layer: request routing, headers, access tokens and the gateway in front of the services; the storefront and admin applications.
- The switch to another inventory store when Postgres is down, and the order row that falls back to memory half-way: every run stays on the store it began with.
- Manual release by reservation id: it settles like a cancel of the same reservation. Audit lists of the inventory are not kept.
- Warehouses in Postgres replays: the incoming warehouse falls back to the default one, as in the code, so a replay of a row placed elsewhere conflicts.
- Row objects of the inventory, refund, inbox and media tables are values in a map or sequence field: references kept by callers to such rows are not modelled. Shipments are real objects.
- An administrator's task keys reused with another action: `task_type` and payload then disagree; nothing is claimed of such tasks beyond the queue accounting.
- Order of `created_at` ties: creation order decides.
- Money is unbounded integers; amounts above 2^53-1 appear only in the PayPal parser.
- Two paid transactions of one order are each capped by the order total, as in the code; no bound is stated on what is refunded of the two together.
- Unique capture ids, an empty string as capture id, and the currency format of refunds and PayPal amounts, including its trimming and upper-casing.
- Payload hashes: the inbox compares payloads as values, so two deliveries of one content in a different JSON key order count as equal.
- `markFailed` of the inbox: no caller uses it.
- The order in which due rows are returned is a parameter of the lease and claim steps; a pass takes a prefix of it.
- Media audit entries of the worker and the handled-by columns: they have no effect on the task.
- Two media workers at once, or a pass that outlives its five-minute reclaim: one worker is modelled, as `MediaReconciliationWorker` runs.
- Listing order of categories and regions (`ORDER BY sort_order, slug`) and of translations; text normalization of catalog inputs.
- Order of a product's SKU rows: the storefront query orders rows by product and locale only. The cache conditions take a product's SKUs in creation order, the same for every locale; `CatalogSkus.OneSkuExactly` is about every order.
- Columns that a save of products never writes (sales counters, tags and highlights): not part of a product's card or text. Asset ids are taken to be unused.
- Time to live of cache entries: eviction at any moment covers it. Other stores use other keys.
- A sort order that is not a number (NaN) in a homepage layout.
- The Postgres path of shipments and its unique tracking number.
- Password hashing, encryption of settings and request signing, mail delivery and object storage: libraries and services outside this repository decide what they do.
- Patterns that normalize e-mail addresses, slugs and codes before they are stored: the model starts from the stored values.
- Newsletter subscriptions and the moderation of reviews: a row's status is overwritten by whatever value comes in, with no rule over time to keep. Order lists, customs totals and reports only read what the modelled tables hold.
